/** Copying the nouns of a finished inner road out to the road around it
    (pkg/urbit/noun/allocate.c:1058-1284): what is shared there is shared in the copy, through new
    references left in the mug slots of what has been copied. */
module Take {
  import opened Nouns
  import opened RefHeap

  /** A noun to be taken: already out (direct, senior, or on this road), or a junior object. */
  datatype Veb = Out(ref: Ref) | Junior(j: nat)

  datatype Kind = Leaf(val: nat) | Node(hed: Veb, tel: Veb)

  /** The mug slot of a junior object, which has a 31-bit mug or the new reference. */
  datatype Mug = Hash(mug: nat) | Moved(p: nat)

  datatype Young = Young(mug: Mug, kind: Kind)

  // ---- what junior objects denote ----

  predicate OutLive(heap: seq<Slot>, jun: seq<Young>, x: Veb) { if x.Out? then Live(heap, x.ref) else x.j < |jun| }

  function N(den: seq<Noun>, jden: seq<Noun>, x: Veb): Noun {
    match x
    case Out(r) => D(den, r)
    case Junior(j) => if j < |jden| then jden[j] else Atom(0)
  }

  predicate JuniorIs(heap: seq<Slot>, den: seq<Noun>, jun: seq<Young>, jden: seq<Noun>, j: nat)
    requires j < |jun| == |jden|
  {
    match jun[j].kind
    case Leaf(v) => jden[j] == Atom(v)
    case Node(h, t) => OutLive(heap, jun, h) && OutLive(heap, jun, t) && jden[j] == Cell(N(den, jden, h), N(den, jden, t))
  }

  /** The new reference for a noun, once it is out. */
  function Img(jun: seq<Young>, x: Veb): Option<Ref> {
    match x
    case Out(r) => Some(r)
    case Junior(j) => if j < |jun| && jun[j].mug.Moved? then Some(Ptr(jun[j].mug.p)) else None
  }

  /** A moved object has a copy with its own parts, or theirs. */
  predicate CopyIs(heap: seq<Slot>, den: seq<Noun>, jun: seq<Young>, jden: seq<Noun>, j: nat)
    requires j < |jun| == |jden|
  {
    jun[j].mug.Moved? ==>
      var p := jun[j].mug.p;
      && p < |heap| && p < |den| && heap[p].Obj? && den[p] == jden[j]
      && match jun[j].kind
         case Leaf(v) => heap[p].body == Words(v)
         case Node(h, t) => Img(jun, h).Some? && Img(jun, t).Some? && heap[p].body == Pair(Img(jun, h).value, Img(jun, t).value)
  }

  /** Different objects have different copies. */
  predicate Apart(jun: seq<Young>, i: nat, j: nat)
    requires i < |jun| && j < |jun|
  {
    i != j && jun[i].mug.Moved? && jun[j].mug.Moved? ==> jun[i].mug.p != jun[j].mug.p
  }

  ghost predicate Taking(heap: seq<Slot>, den: seq<Noun>, jun: seq<Young>, jden: seq<Noun>) {
    && |heap| == |den| && |jun| == |jden|
    && (forall j | 0 <= j < |jun| :: JuniorIs(heap, den, jun, jden, j))
    && (forall j | 0 <= j < |jun| :: CopyIs(heap, den, jun, jden, j))
    && (forall i, j | 0 <= i < |jun| && 0 <= j < |jun| :: Apart(jun, i, j))
  }

  /** Nothing is freed: what was in use is, with the same body and noun. */
  ghost predicate Grown(heap: seq<Slot>, den: seq<Noun>, heap': seq<Slot>, den': seq<Noun>) {
    && |heap| == |den| <= |heap'| == |den'|
    && forall p | 0 <= p < |heap| :: heap'[p].Obj? == heap[p].Obj? && (heap[p].Obj? ==> heap'[p].body == heap[p].body) && den'[p] == den[p]
  }

  /** The same objects, more of them moved. */
  ghost predicate Further(jun: seq<Young>, jun': seq<Young>) {
    |jun'| == |jun| && forall j | 0 <= j < |jun| :: jun'[j].kind == jun[j].kind && (jun[j].mug.Moved? ==> jun'[j].mug == jun[j].mug)
  }

  /** Junior objects reachable from a noun. */
  ghost function Objects(jun: seq<Young>, x: Veb, n: Noun): set<nat>
    decreases n
  {
    if x.Out? || x.j >= |jun| then {}
    else
      {x.j} + match (jun[x.j].kind, n)
              case (Node(h, t), Cell(hn, tn)) => Objects(jun, h, hn) + Objects(jun, t, tn)
              case _ => {}
  }

  /** What is met in taking a noun: itself, and the parts of the objects it reaches. */
  ghost function Met(jun: seq<Young>, x: Veb, n: Noun): set<Veb>
    decreases n
  {
    {x} + if x.Out? || x.j >= |jun| then {}
          else
            match (jun[x.j].kind, n)
            case (Node(h, t), Cell(hn, tn)) => Met(jun, h, hn) + Met(jun, t, tn)
            case _ => {}
  }

  /** The new reference for `x` has the highest use count. */
  predicate Full(heap: seq<Slot>, jun: seq<Young>, x: Veb) {
    var r := Img(jun, x);
    r.Some? && r.value.Ptr? && r.value.p < |heap| && heap[r.value.p].Obj? && heap[r.value.p].use >= MAX_USE
  }

  /** Something met, once out, can be referred to no more. */
  ghost predicate Refused(heap: seq<Slot>, jun: seq<Young>, met: set<Veb>) { exists x :: x in met && Full(heap, jun, x) }

  lemma {:induction false} MetFurther(jun: seq<Young>, jun': seq<Young>, x: Veb, n: Noun)
    requires Further(jun, jun')
    ensures Met(jun', x, n) == Met(jun, x, n)
    decreases n
  {
    if x.Junior? && x.j < |jun| && jun[x.j].kind.Node? && n.Cell? {
      MetFurther(jun, jun', jun[x.j].kind.hed, n.head);
      MetFurther(jun, jun', jun[x.j].kind.tel, n.tail);
    }
  }

  // ---- what keeps ----

  lemma NounGrown(heap: seq<Slot>, den: seq<Noun>, heap': seq<Slot>, den': seq<Noun>, jun: seq<Young>,
          jden: seq<Noun>, x: Veb)
    requires Grown(heap, den, heap', den') && OutLive(heap, jun, x)
    ensures OutLive(heap', jun, x) && N(den', jden, x) == N(den, jden, x)
  {
  }

  lemma TakingGrown(heap: seq<Slot>, den: seq<Noun>, heap': seq<Slot>, den': seq<Noun>, jun: seq<Young>,
          jden: seq<Noun>)
    requires Taking(heap, den, jun, jden) && Grown(heap, den, heap', den')
    ensures Taking(heap', den', jun, jden)
  {
    hide Grown, N, OutLive;
    forall j | 0 <= j < |jun| ensures JuniorIs(heap', den', jun, jden, j) {
      assert JuniorIs(heap, den, jun, jden, j);
      if jun[j].kind.Node? {
        NounGrown(heap, den, heap', den', jun, jden, jun[j].kind.hed);
        NounGrown(heap, den, heap', den', jun, jden, jun[j].kind.tel);
      }
    }
    forall j | 0 <= j < |jun| ensures CopyIs(heap', den', jun, jden, j) {
      assert CopyIs(heap, den, jun, jden, j);
      GrownSizes(heap, den, heap', den');
      if jun[j].mug.Moved? { GrownAt(heap, den, heap', den', jun[j].mug.p); }
    }
    GrownSizes(heap, den, heap', den');
  }

  lemma GrownSizes(heap: seq<Slot>, den: seq<Noun>, heap': seq<Slot>, den': seq<Noun>)
    requires Grown(heap, den, heap', den')
    ensures |heap| == |den| <= |heap'| == |den'|
  {
  }

  lemma GrownAt(heap: seq<Slot>, den: seq<Noun>, heap': seq<Slot>, den': seq<Noun>, p: nat)
    requires Grown(heap, den, heap', den') && p < |heap|
    ensures heap'[p].Obj? == heap[p].Obj? && (heap[p].Obj? ==> heap'[p].body == heap[p].body) && den'[p] == den[p]
  {
  }

  lemma GrownTwice(h: seq<Slot>, d: seq<Noun>, h1: seq<Slot>, d1: seq<Noun>, h2: seq<Slot>, d2: seq<Noun>)
    requires Grown(h, d, h1, d1) && Grown(h1, d1, h2, d2)
    ensures Grown(h, d, h2, d2)
  {
  }

  /** An object that was not moved gets its copy, in a new slot. */
  lemma TakingMoved(heap: seq<Slot>, den: seq<Noun>, jun: seq<Young>, jden: seq<Noun>, j: nat, s: Slot)
    requires Taking(heap, den, jun, jden) && j < |jun| && !jun[j].mug.Moved? && s.Obj?
    requires
      match jun[j].kind
      case Leaf(v) => s.body == Words(v)
      case Node(h, t) => Img(jun, h).Some? && Img(jun, t).Some? && s.body == Pair(Img(jun, h).value, Img(jun, t).value)
    ensures
      var jun' := jun[j := jun[j].(mug := Moved(|heap|))];
      Taking(heap + [s], den + [jden[j]], jun', jden) && Further(jun, jun') && Img(jun', Junior(j)) == Some(Ptr(|heap|))
    ensures Grown(heap, den, heap + [s], den + [jden[j]])
  {
    hide OutLive, N;
    var jun' := jun[j := jun[j].(mug := Moved(|heap|))];
    var heap', den' := heap + [s], den + [jden[j]];
    TakingGrown(heap, den, heap', den', jun, jden);
    forall i | 0 <= i < |jun| ensures JuniorIs(heap', den', jun', jden, i) {
      assert JuniorIs(heap', den', jun, jden, i);
      if jun[i].kind.Node? { LiveMoved(heap', jun, jun', jun[i].kind.hed); LiveMoved(heap', jun, jun', jun[i].kind.tel); }
    }
    forall i | 0 <= i < |jun| ensures CopyIs(heap', den', jun', jden, i) { assert CopyIs(heap', den', jun, jden, i); }
    forall i, k | 0 <= i < |jun| && 0 <= k < |jun| ensures Apart(jun', i, k) {
      assert Apart(jun, i, k);
      assert CopyIs(heap, den, jun, jden, i) && CopyIs(heap, den, jun, jden, k);
    }
  }

  lemma LiveMoved(heap: seq<Slot>, jun: seq<Young>, jun': seq<Young>, x: Veb)
    requires OutLive(heap, jun, x) && |jun'| == |jun|
    ensures OutLive(heap, jun', x)
  {
  }

  /** Whatever is out has all it reaches out, and denotes what it did. */
  lemma {:induction false} AllOut(heap: seq<Slot>, den: seq<Noun>, jun: seq<Young>, jden: seq<Noun>, x: Veb, n: Noun)
    requires Taking(heap, den, jun, jden) && OutLive(heap, jun, x) && Img(jun, x).Some? && n == N(den, jden, x)
    ensures D(den, Img(jun, x).value) == n && Live(heap, Img(jun, x).value)
    ensures forall j | j in Objects(jun, x, n) :: j < |jun| && jun[j].mug.Moved?
    decreases n
  {
    if x.Junior? {
      assert JuniorIs(heap, den, jun, jden, x.j) && CopyIs(heap, den, jun, jden, x.j);
      if jun[x.j].kind.Node? {
        AllOut(heap, den, jun, jden, jun[x.j].kind.hed, n.head);
        AllOut(heap, den, jun, jden, jun[x.j].kind.tel, n.tail);
      }
    }
  }

  lemma {:induction false} ObjectsFurther(jun: seq<Young>, jun': seq<Young>, x: Veb, n: Noun)
    requires Further(jun, jun')
    ensures Objects(jun', x, n) == Objects(jun, x, n)
    decreases n
  {
    if x.Junior? && x.j < |jun| && jun[x.j].kind.Node? && n.Cell? {
      ObjectsFurther(jun, jun', jun[x.j].kind.hed, n.head);
      ObjectsFurther(jun, jun', jun[x.j].kind.tel, n.tail);
    }
  }

  // ---- the stack ----

  /** A cell being taken: its head is yet to come, or is here and its tail is yet to come. */
  datatype Frame = Frame(hed: Option<Ref>, cell: nat)

  /** Taking `x` is what the top frame waits for, taking its cell what the next waits for, and so on
      down to the root. */
  ghost predicate Linked(jun: seq<Young>, pile: seq<Frame>, x: Veb, root: Veb) {
    if pile == [] then x == root
    else
      var f := pile[|pile| - 1];
      && f.cell < |jun| && jun[f.cell].kind.Node? && !jun[f.cell].mug.Moved?
      && (match f.hed
          case None => x == jun[f.cell].kind.hed
          case Some(r) => x == jun[f.cell].kind.tel && Img(jun, jun[f.cell].kind.hed) == Some(r))
      && Linked(jun, pile[..|pile| - 1], Junior(f.cell), root)
  }

  function Size(n: Noun): (s: nat)
    ensures s > 0
  {
    match n
    case Atom(_) => 1
    case Cell(h, t) => 3 + Size(h) + Size(t)
  }

  /** What the frames have still to do. */
  function Work(jden: seq<Noun>, pile: seq<Frame>): nat {
    if pile == [] then 0
    else
      var f := pile[|pile| - 1];
      Work(jden, pile[..|pile| - 1]) +
      if f.hed.None? && f.cell < |jden| && jden[f.cell].Cell? then 2 + Size(jden[f.cell].tail) else 1
  }

  /** The copies that frames hold. */
  function OwnPile(pile: seq<Frame>): multiset<nat> {
    if pile == [] then multiset{}
    else
      var f := pile[|pile| - 1];
      OwnPile(pile[..|pile| - 1]) + if f.hed.Some? then Own(f.hed.value) else multiset{}
  }

  lemma Pushed(pile: seq<Frame>, f: Frame)
    ensures (pile + [f])[..|pile|] == pile && (pile + [f])[|pile|] == f
  {
  }

  lemma {:induction false} LinkedFurther(jun: seq<Young>, jun': seq<Young>, pile: seq<Frame>, x: Veb, root: Veb)
    requires Linked(jun, pile, x, root) && Further(jun, jun')
    requires forall f | f in pile :: f.cell < |jun'| && !jun'[f.cell].mug.Moved?
    ensures Linked(jun', pile, x, root)
    decreases |pile|
  {
    if pile != [] {
      var f := pile[|pile| - 1];
      assert f in pile;
      LinkedFurther(jun, jun', pile[..|pile| - 1], Junior(f.cell), root);
    }
  }

  /** Cells on the stack are larger than what is being taken, so none of them is it. */
  lemma {:induction false} Deeper(heap: seq<Slot>, den: seq<Noun>, jun: seq<Young>, jden: seq<Noun>,
          pile: seq<Frame>, x: Veb, root: Veb, f: Frame)
    requires Taking(heap, den, jun, jden) && Linked(jun, pile, x, root) && f in pile
    ensures f.cell < |jun| && !jun[f.cell].mug.Moved? && Size(jden[f.cell]) > Size(N(den, jden, x))
    decreases |pile|
  {
    hide Taking;
    var k := |pile| - 1;
    var top := pile[k];
    NodeIs(heap, den, jun, jden, top.cell);
    if f != top {
      assert f in pile[..k];
      Deeper(heap, den, jun, jden, pile[..k], Junior(top.cell), root, f);
    }
  }

  lemma NodeIs(heap: seq<Slot>, den: seq<Noun>, jun: seq<Young>, jden: seq<Noun>, j: nat)
    requires Taking(heap, den, jun, jden) && j < |jun|
    ensures |jden| == |jun| && JuniorIs(heap, den, jun, jden, j)
  {
  }

  /** What is being taken, and all it reaches, is reached from the root. */
  lemma {:induction false} Reached(heap: seq<Slot>, den: seq<Noun>, jun: seq<Young>, jden: seq<Noun>,
          pile: seq<Frame>, x: Veb, root: Veb)
    requires Taking(heap, den, jun, jden) && Linked(jun, pile, x, root)
    ensures Objects(jun, x, N(den, jden, x)) <= Objects(jun, root, N(den, jden, root))
    decreases |pile|
  {
    hide Taking;
    if pile != [] {
      var k := |pile| - 1;
      NodeIs(heap, den, jun, jden, pile[k].cell);
      Reached(heap, den, jun, jden, pile[..k], Junior(pile[k].cell), root);
    }
  }

  /** What is being taken is met in taking the root. */
  lemma {:induction false} MetOnTheWay(heap: seq<Slot>, den: seq<Noun>, jun: seq<Young>, jden: seq<Noun>,
          pile: seq<Frame>, x: Veb, root: Veb)
    requires Taking(heap, den, jun, jden) && Linked(jun, pile, x, root)
    ensures Met(jun, x, N(den, jden, x)) <= Met(jun, root, N(den, jden, root))
    decreases |pile|
  {
    hide Taking;
    if pile != [] {
      var k := |pile| - 1;
      NodeIs(heap, den, jun, jden, pile[k].cell);
      MetOnTheWay(heap, den, jun, jden, pile[..k], Junior(pile[k].cell), root);
    }
  }

  /** What cannot be gained was met. */
  lemma RefusedHere(heap0: seq<Slot>, den0: seq<Noun>, jun0: seq<Young>, heap: seq<Slot>, den: seq<Noun>,
          jun: seq<Young>, jden: seq<Noun>, pile: seq<Frame>, x: Veb, root: Veb, r: Ref)
    requires Progress(heap0, den0, jun0, heap, den, jun, jden, root) && Linked(jun, pile, x, root) && Img(jun, x) == Some(r)
    requires r.Ptr? && r.p < |heap| && heap[r.p].Obj? && heap[r.p].use >= MAX_USE
    ensures Refused(heap, jun, Met(jun0, root, N(den0, jden, root)))
  {
    hide Taking, Grown, Further, N, Linked, OutLive;
    MetOnTheWay(heap, den, jun, jden, pile, x, root);
    NounGrown(heap0, den0, heap, den, jun0, jden, root);
    MetFurther(jun0, jun, root, N(den0, jden, root));
    assert x in Met(jun, x, N(den, jden, x));
    assert Full(heap, jun, x);
  }

  // ---- taking ----

  predicate CopyAt(jun: seq<Young>, p: nat) { exists j :: 0 <= j < |jun| && jun[j].mug == Moved(p) }

  /** From `heap0` on: every new slot is the copy of an object, which is reached from the root. */
  ghost predicate Progress(heap0: seq<Slot>, den0: seq<Noun>, jun0: seq<Young>, heap: seq<Slot>,
          den: seq<Noun>, jun: seq<Young>, jden: seq<Noun>, root: Veb) {
    && Taking(heap, den, jun, jden) && Grown(heap0, den0, heap, den) && Further(jun0, jun) && OutLive(heap0, jun0, root)
    && (forall p | |heap0| <= p < |heap| :: CopyAt(jun, p))
    && (forall j | 0 <= j < |jun| && jun[j].mug.Moved? && !jun0[j].mug.Moved? :: j in Objects(jun0, root, N(den0, jden, root)))
  }

  lemma ProgressGrown(heap0: seq<Slot>, den0: seq<Noun>, jun0: seq<Young>, heap: seq<Slot>, den: seq<Noun>,
          heap': seq<Slot>, jun: seq<Young>, jden: seq<Noun>, root: Veb)
    requires Progress(heap0, den0, jun0, heap, den, jun, jden, root) && Grown(heap, den, heap', den) && |heap'| == |heap|
    ensures Progress(heap0, den0, jun0, heap', den, jun, jden, root)
  {
    hide Taking, Grown, N, Objects, Further;
    TakingGrown(heap, den, heap', den, jun, jden);
    GrownTwice(heap0, den0, heap, den, heap', den);
    FurtherSize(jun0, jun);
  }

  lemma FurtherSize(jun: seq<Young>, jun': seq<Young>)
    requires Further(jun, jun')
    ensures |jun'| == |jun|
  {
  }

  lemma FurtherTwice(a: seq<Young>, b: seq<Young>, c: seq<Young>)
    requires Further(a, b) && Further(b, c)
    ensures Further(a, c)
  {
  }

  lemma ProgressMoved(heap0: seq<Slot>, den0: seq<Noun>, jun0: seq<Young>, heap: seq<Slot>, den: seq<Noun>,
          jun: seq<Young>, jden: seq<Noun>, root: Veb, j: nat, s: Slot)
    requires Progress(heap0, den0, jun0, heap, den, jun, jden, root) && j < |jun| && !jun[j].mug.Moved? && s.Obj? && j < |jden|
    requires
      match jun[j].kind
      case Leaf(v) => s.body == Words(v)
      case Node(h, t) => Img(jun, h).Some? && Img(jun, t).Some? && s.body == Pair(Img(jun, h).value, Img(jun, t).value)
    requires j in Objects(jun0, root, N(den0, jden, root))
    ensures
      var jun' := jun[j := jun[j].(mug := Moved(|heap|))];
      && Progress(heap0, den0, jun0, heap + [s], den + [jden[j]], jun', jden, root) && Further(jun, jun')
      && Img(jun', Junior(j)) == Some(Ptr(|heap|))
  {
    hide Taking, Grown, N, Objects;
    var jun' := jun[j := jun[j].(mug := Moved(|heap|))];
    TakingMoved(heap, den, jun, jden, j, s);
    GrownTwice(heap0, den0, heap, den, heap + [s], den + [jden[j]]);
    hide Further, Img;
    FurtherTwice(jun0, jun, jun');
    FurtherSize(jun0, jun);
    forall p | |heap0| <= p < |heap + [s]| ensures CopyAt(jun', p) {
      if p < |heap| {
        assert CopyAt(jun, p);
        var i :| 0 <= i < |jun| && jun[i].mug == Moved(p);
        assert jun'[i].mug == Moved(p);
      } else {
        assert jun'[j].mug == Moved(p);
      }
    }
  }

  lemma ProgressIs(heap0: seq<Slot>, den0: seq<Noun>, jun0: seq<Young>, heap: seq<Slot>, den: seq<Noun>,
          jun: seq<Young>, jden: seq<Noun>, root: Veb)
    requires Progress(heap0, den0, jun0, heap, den, jun, jden, root)
    ensures Taking(heap, den, jun, jden) && Grown(heap0, den0, heap, den) && Further(jun0, jun)
  {
  }

  /** Take a reference that is on the road or off it. */
  method Hold(road: Road, r: Ref, ghost held: multiset<nat>) returns (ok: bool)
    requires road.Valid(held) && Live(road.heap, r)
    modifies road`heap
    ensures ok ==> road.Valid(held + Own(r)) && Grown(old(road.heap), road.den, road.heap, road.den) && |road.heap| == |old(road.heap)|
    ensures !ok ==> r.Ptr? && road.heap == old(road.heap) && road.heap[r.p].use >= MAX_USE
  {
    hide Good;
    SizesMatch(road.heap, road.den, held);
    ghost var h := road.heap;
    ok := road.Gain(r, held);
    if ok {
      forall p | 0 <= p < |h| ensures road.heap[p].Obj? == h[p].Obj? {
        assert Live(h, Ptr(p)) ==> Live(road.heap, Ptr(p));
      }
    }
  }

  /** Take `veb` as far as it can be without its parts; cells with parts to come go on the stack
      (`_ca_take_next_north`, `_ca_take_next_south`). `x` is what has been taken. */
  method Next(road: Road, jun: array<Young>, pile0: seq<Frame>, veb0: Veb,
              ghost heap0: seq<Slot>, ghost den0: seq<Noun>, ghost jun0: seq<Young>, ghost jden: seq<Noun>, ghost root: Veb, ghost held: multiset<nat>)
    returns (ok: bool, pro: Ref, pile: seq<Frame>, ghost x: Veb)
    requires Progress(heap0, den0, jun0, road.heap, road.den, jun[..], jden, root) && road.Valid(held + OwnPile(pile0))
    requires OutLive(road.heap, jun[..], veb0) && Linked(jun[..], pile0, veb0, root)
    modifies road, jun
    ensures ok ==> Progress(heap0, den0, jun0, road.heap, road.den, jun[..], jden, root) && road.Valid(held + OwnPile(pile) + Own(pro))
    ensures ok ==> Linked(jun[..], pile, x, root) && Img(jun[..], x) == Some(pro)
    ensures !ok ==> Refused(road.heap, jun[..], Met(jun0, root, N(den0, jden, root)))
    ensures ok ==> Work(jden, pile) < Work(jden, pile0) + Size(N(old(road.den), jden, veb0))
  {
    hide Progress, Taking, Linked, Work, OwnPile, N, Good, Size, Objects, Img, Grown, Further, Refused, Met;
    var veb := veb0;
    pile := pile0;
    ghost var d := road.den;
    while true
      invariant Linked(jun[..], pile, veb, root) && OutLive(road.heap, jun[..], veb) && road.Valid(held + OwnPile(pile))
      invariant road.heap == old(road.heap) && road.den == d && jun[..] == old(jun[..])
      invariant Work(jden, pile) + Size(N(d, jden, veb)) <= Work(jden, pile0) + Size(N(d, jden, veb0))
      decreases Size(N(d, jden, veb))
    {
      ghost var j0 := jun[..];
      ProgressIs(heap0, den0, jun0, road.heap, d, j0, jden, root);
      x := veb;
      pro := Far(Atom(0));
      match veb {
        case Out(r) =>
          ok := Hold(road, r, held + OwnPile(pile));
          ImgOut(j0, r);
          if ok {
            ProgressGrown(heap0, den0, jun0, old(road.heap), d, road.heap, j0, jden, root);
          } else {
            RefusedHere(heap0, den0, jun0, road.heap, d, j0, jden, pile, x, root, r);
          }
          pro := r;
          return;
        case Junior(j) =>
          NodeIs(road.heap, d, j0, jden, j);
          match jun[j].mug {
            case Moved(p) =>
              CopyLive(road.heap, d, j0, jden, j);
              ok := Hold(road, Ptr(p), held + OwnPile(pile));
              if ok {
                ProgressGrown(heap0, den0, jun0, old(road.heap), d, road.heap, j0, jden, root);
              } else {
                RefusedHere(heap0, den0, jun0, road.heap, d, j0, jden, pile, x, root, Ptr(p));
              }
              pro := Ptr(p);
              return;
            case Hash(_) =>
              match jun[j].kind {
                case Leaf(v) =>
                  InReach(heap0, den0, jun0, road.heap, d, j0, jden, pile, j, root);
                  AtomIs(road.heap, d, j0, jden, j);
                  StackApart(road.heap, d, j0, jden, pile, j, root);
                  ProgressMoved(heap0, den0, jun0, road.heap, d, j0, jden, root, j, Obj(1, Words(v)));
                  pro := road.NewAtom(v, held + OwnPile(pile));
                  jun[j] := jun[j].(mug := Moved(pro.p));
                  assert jun[..] == j0[j := j0[j].(mug := Moved(pro.p))];
                  LinkedFurther(j0, jun[..], pile, x, root);
                  ok := true;
                  return;
                case Node(h, t) =>
                  PushFrame(road.heap, d, j0, jden, pile, j, root);
                  pile := pile + [Frame(None, j)];
                  veb := h;
              }
          }
      }
    }
  }

  lemma InReach(heap0: seq<Slot>, den0: seq<Noun>, jun0: seq<Young>, heap: seq<Slot>, den: seq<Noun>,
          jun: seq<Young>, jden: seq<Noun>, pile: seq<Frame>, j: nat, root: Veb)
    requires Progress(heap0, den0, jun0, heap, den, jun, jden, root) && Linked(jun, pile, Junior(j), root) && j < |jun|
    ensures j in Objects(jun0, root, N(den0, jden, root))
  {
    hide Taking, Grown, Further, N, OutLive, Linked;
    Reached(heap, den, jun, jden, pile, Junior(j), root);
    NounGrown(heap0, den0, heap, den, jun0, jden, root);
    ObjectsFurther(jun0, jun, root, N(den0, jden, root));
  }

  /** What is being taken is not on the stack. */
  lemma StackApart(heap: seq<Slot>, den: seq<Noun>, jun: seq<Young>, jden: seq<Noun>, pile: seq<Frame>, j: nat,
          root: Veb)
    requires Taking(heap, den, jun, jden) && Linked(jun, pile, Junior(j), root) && j < |jun|
    ensures forall f | f in pile :: f.cell < |jun| && !jun[f.cell].mug.Moved? && f.cell != j
  {
    hide Taking, Linked;
    NodeIs(heap, den, jun, jden, j);
    forall f | f in pile ensures f.cell < |jun| && !jun[f.cell].mug.Moved? && f.cell != j { Deeper(heap, den, jun, jden, pile, Junior(j), root, f); }
  }

  lemma AtomIs(heap: seq<Slot>, den: seq<Noun>, jun: seq<Young>, jden: seq<Noun>, j: nat)
    requires Taking(heap, den, jun, jden) && j < |jun| && jun[j].kind.Leaf?
    ensures jden[j] == Atom(jun[j].kind.val)
  {
    assert JuniorIs(heap, den, jun, jden, j);
  }

  /** A cell that is not out goes on the stack, and its head is to be taken. */
  lemma PushFrame(heap: seq<Slot>, den: seq<Noun>, jun: seq<Young>, jden: seq<Noun>, pile: seq<Frame>, j: nat,
          root: Veb)
    requires Taking(heap, den, jun, jden) && Linked(jun, pile, Junior(j), root) && j < |jun| && !jun[j].mug.Moved? && jun[j].kind.Node?
    ensures
      var pile', h := pile + [Frame(None, j)], jun[j].kind.hed;
      && Linked(jun, pile', h, root) && OutLive(heap, jun, h) && OwnPile(pile') == OwnPile(pile)
      && Work(jden, pile') + Size(N(den, jden, h)) < Work(jden, pile) + Size(N(den, jden, Junior(j)))
      && Size(N(den, jden, h)) < Size(N(den, jden, Junior(j)))
  {
    hide Taking;
    NodeIs(heap, den, jun, jden, j);
    Pushed(pile, Frame(None, j));
  }

  lemma ImgOut(jun: seq<Young>, r: Ref)
    ensures Img(jun, Out(r)) == Some(r)
  {
  }

  lemma CopyLive(heap: seq<Slot>, den: seq<Noun>, jun: seq<Young>, jden: seq<Noun>, j: nat)
    requires Taking(heap, den, jun, jden) && j < |jun| && jun[j].mug.Moved?
    ensures Live(heap, Ptr(jun[j].mug.p)) && Img(jun, Junior(j)) == Some(Ptr(jun[j].mug.p))
  {
    assert CopyIs(heap, den, jun, jden, j);
  }

  /** The top frame's head is out: its tail is to be taken. */
  lemma TurnFrame(heap: seq<Slot>, den: seq<Noun>, jun: seq<Young>, jden: seq<Noun>, pile: seq<Frame>, x: Veb,
          root: Veb, pro: Ref)
    requires Taking(heap, den, jun, jden) && pile != [] && pile[|pile| - 1].hed.None? && Linked(jun, pile, x, root) && Img(jun, x) == Some(pro)
    ensures
      var k := |pile| - 1;
      var f := pile[k];
      var pile' := pile[..k] + [Frame(Some(pro), f.cell)];
      && f.cell < |jun| && jun[f.cell].kind.Node? && Linked(jun, pile', jun[f.cell].kind.tel, root) && OutLive(heap, jun, jun[f.cell].kind.tel)
      && OwnPile(pile') == OwnPile(pile) + Own(pro)
      && Work(jden, pile') + Size(N(den, jden, jun[f.cell].kind.tel)) < Work(jden, pile)
  {
    hide Taking;
    var k := |pile| - 1;
    var f := pile[k];
    NodeIs(heap, den, jun, jden, f.cell);
    Pushed(pile[..k], Frame(Some(pro), f.cell));
  }

  /** The top frame's head and tail are out: they are those of its cell's copy. */
  lemma PopFrame(heap: seq<Slot>, den: seq<Noun>, jun: seq<Young>, jden: seq<Noun>, pile: seq<Frame>, x: Veb,
          root: Veb, pro: Ref)
    requires Taking(heap, den, jun, jden) && pile != [] && pile[|pile| - 1].hed.Some? && Linked(jun, pile, x, root) && Img(jun, x) == Some(pro)
    ensures
      var k := |pile| - 1;
      var f := pile[k];
      var h := f.hed.value;
      && f.cell < |jun| == |jden| && !jun[f.cell].mug.Moved? && jun[f.cell].kind.Node? && Linked(jun, pile[..k], Junior(f.cell), root)
      && Img(jun, jun[f.cell].kind.hed) == Some(h) && Img(jun, jun[f.cell].kind.tel) == Some(pro)
      && jden[f.cell] == Cell(D(den, h), D(den, pro))
      && OwnPile(pile) == OwnPile(pile[..k]) + Own(h) && Work(jden, pile) > Work(jden, pile[..k])
  {
    hide Taking;
    var f := pile[|pile| - 1];
    NodeIs(heap, den, jun, jden, f.cell);
    AllOut(heap, den, jun, jden, jun[f.cell].kind.hed, N(den, jden, jun[f.cell].kind.hed));
    AllOut(heap, den, jun, jden, jun[f.cell].kind.tel, N(den, jden, jun[f.cell].kind.tel));
  }

  lemma Empty(jun: seq<Young>, x: Veb, root: Veb)
    ensures OwnPile([]) == multiset{}
    ensures Linked(jun, [], x, root) <==> x == root
  {
  }

  /** Take a noun out (`_ca_take_north`, `_ca_take_south`): it denotes what it did; each object it
      reaches is copied once, and nothing else; and every count is right. It fails only where
      something met in it is out already, and has the highest use count. */
  method TakeNoun(road: Road, jun: array<Young>, veb: Veb, ghost jden: seq<Noun>,
          ghost held: multiset<nat>) returns (ok: bool, pro: Ref)
    requires Taking(road.heap, road.den, jun[..], jden) && road.Valid(held) && OutLive(road.heap, jun[..], veb)
    modifies road, jun
    ensures ok ==> road.Valid(held + Own(pro)) && D(road.den, pro) == N(old(road.den), jden, veb) && Img(jun[..], veb) == Some(pro)
    ensures ok ==> Progress(old(road.heap), old(road.den), old(jun[..]), road.heap, road.den, jun[..], jden, veb)
    ensures !ok ==> Refused(road.heap, jun[..], Met(old(jun[..]), veb, N(old(road.den), jden, veb)))
    ensures ok ==> forall j | j in Objects(old(jun[..]), veb, N(old(road.den), jden, veb)) :: j < jun.Length && jun[..][j].mug.Moved?
  {
    hide Progress, Taking, Linked, Work, OwnPile, N, Good, Size, Objects, Img, Grown, Further, OutLive, Own, Refused, Met;
    ghost var h0, d0, j0 := road.heap, road.den, jun[..];
    Start(h0, d0, j0, jden, veb);
    Empty(j0, veb, veb);
    var pile;
    ghost var x;
    assert held + OwnPile([]) == held;
    ok, pro, pile, x := Next(road, jun, [], veb, h0, d0, j0, jden, veb, held);
    while ok && pile != []
      invariant ok ==> Progress(h0, d0, j0, road.heap, road.den, jun[..], jden, veb) && road.Valid(held + OwnPile(pile) + Own(pro))
      invariant !ok ==> Refused(road.heap, jun[..], Met(j0, veb, N(d0, jden, veb)))
      invariant ok ==> Linked(jun[..], pile, x, veb) && Img(jun[..], x) == Some(pro)
      decreases ok, Work(jden, pile)
    {
      ghost var j1, h1, d1 := jun[..], road.heap, road.den;
      ProgressIs(h0, d0, j0, h1, d1, j1, jden, veb);
      var k := |pile| - 1;
      var fam := pile[k];
      if fam.hed.None? {
        TurnFrame(h1, d1, j1, jden, pile, x, veb, pro);
        ghost var was := pile;
        pile := pile[..k] + [Frame(Some(pro), fam.cell)];
        assert held + OwnPile(was) + Own(pro) == held + OwnPile(pile);
        ok, pro, pile, x := Next(road, jun, pile, jun[fam.cell].kind.tel, h0, d0, j0, jden, veb, held);
      } else {
        PopFrame(h1, d1, j1, jden, pile, x, veb, pro);
        InReach(h0, d0, j0, h1, d1, j1, jden, pile[..k], fam.cell, veb);
        StackApart(h1, d1, j1, jden, pile[..k], fam.cell, veb);
        ProgressMoved(h0, d0, j0, h1, d1, j1, jden, veb, fam.cell, Obj(1, Pair(fam.hed.value, pro)));
        assert held + OwnPile(pile) + Own(pro) == held + OwnPile(pile[..k]) + Own(fam.hed.value) + Own(pro);
        pro := road.Cons(fam.hed.value, pro, held + OwnPile(pile[..k]));
        jun[fam.cell] := jun[fam.cell].(mug := Moved(pro.p));
        assert jun[..] == j1[fam.cell := j1[fam.cell].(mug := Moved(pro.p))];
        pile := pile[..k];
        x := Junior(fam.cell);
        LinkedFurther(j1, jun[..], pile, x, veb);
      }
    }
    if ok {
      Empty(jun[..], x, veb);
      assert held + OwnPile([]) + Own(pro) == held + Own(pro);
      Finished(h0, d0, j0, road.heap, road.den, jun[..], jden, veb, pro);
    }
  }

  lemma Start(heap: seq<Slot>, den: seq<Noun>, jun: seq<Young>, jden: seq<Noun>, root: Veb)
    requires Taking(heap, den, jun, jden) && OutLive(heap, jun, root)
    ensures Progress(heap, den, jun, heap, den, jun, jden, root)
  {
  }

  lemma Finished(heap0: seq<Slot>, den0: seq<Noun>, jun0: seq<Young>, heap: seq<Slot>, den: seq<Noun>,
          jun: seq<Young>, jden: seq<Noun>, root: Veb, pro: Ref)
    requires Progress(heap0, den0, jun0, heap, den, jun, jden, root) && Img(jun, root) == Some(pro)
    ensures D(den, pro) == N(den0, jden, root)
    ensures forall j | j in Objects(jun0, root, N(den0, jden, root)) :: j < |jun| && jun[j].mug.Moved?
  {
    hide Taking, Grown, Further, N, OutLive, Img;
    NounGrown(heap0, den0, heap, den, jun0, jden, root);
    ObjectsFurther(jun0, jun, root, N(den0, jden, root));
    FurtherSize(jun0, jun);
    LiveMoved(heap, jun0, jun, root);
    AllOut(heap, den, jun, jden, root, N(den, jden, root));
  }
}
