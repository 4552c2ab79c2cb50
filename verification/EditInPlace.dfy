/** Editing a noun at an axis, in place where nothing else can see it
    (pkg/urbit/noun/imprison.c:593-737). */
module EditInPlace {
  import opened Nouns
  import opened RefHeap

  /** Exit: the noun has no such axis. Full: a use count is at its highest. Both end the computation. */
  datatype Outcome = Done(ref: Ref) | Exit | Full

  /** The two parts of a cell on or off the road. */
  function Parts(heap: seq<Slot>, r: Ref): Option<(Ref, Ref)> {
    match r
    case Far(Cell(h, t)) => Some((Far(h), Far(t)))
    case Far(Atom(_)) => None
    case Ptr(p) => if p < |heap| && heap[p].Obj? && heap[p].body.Pair? then Some((heap[p].body.hed, heap[p].body.tel)) else None
  }

  lemma PartsAre(heap: seq<Slot>, den: seq<Noun>, held: multiset<nat>, r: Ref)
    requires Good(heap, den, held) && Own(r) <= held
    ensures
      match Parts(heap, r)
      case None => D(den, r).Atom?
      case Some((h, t)) => D(den, r) == Cell(D(den, h), D(den, t)) && Live(heap, h) && Live(heap, t)
  {
    HeldLive(heap, den, held, r);
    if r.Ptr? {
      assert Means(heap, den, r.p);
      if heap[r.p].body.Pair? { PartLive(heap, den, held, r.p); }
    }
  }

  /** Held slots are as they were: in use, with the same body and the same noun. */
  ghost predicate Spared(held: multiset<nat>, heap: seq<Slot>, den: seq<Noun>, heap': seq<Slot>, den': seq<Noun>) {
    |heap| == |den| && |heap'| == |den'| && forall p | p in held :: SparedAt(heap, den, heap', den', p)
  }

  ghost predicate SparedAt(heap: seq<Slot>, den: seq<Noun>, heap': seq<Slot>, den': seq<Noun>, p: nat)
    requires |heap| == |den| && |heap'| == |den'|
  {
    p < |heap| && p < |heap'| && heap[p].Obj? && heap'[p].Obj? && heap'[p].body == heap[p].body && den'[p] == den[p]
  }

  /** Slots that nothing in the heap referred to are still not referred to, but for `a` and `b`. */
  ghost predicate Aloof(heap: seq<Slot>, heap': seq<Slot>, a: Ref, b: Ref) {
    forall p | 0 <= p < |heap| && In(heap, p) == 0 && a != Ptr(p) && b != Ptr(p) :: In(heap', p) == 0
  }

  lemma SparedTwice(held: multiset<nat>, a: seq<Slot>, ad: seq<Noun>, b: seq<Slot>, bd: seq<Noun>,
          c: seq<Slot>, cd: seq<Noun>)
    requires Spared(held, a, ad, b, bd) && Spared(held, b, bd, c, cd)
    ensures Spared(held, a, ad, c, cd)
  {
    forall p | p in held ensures SparedAt(a, ad, c, cd, p) { assert SparedAt(a, ad, b, bd, p) && SparedAt(b, bd, c, cd, p); }
  }

  lemma InHeap(heap: seq<Slot>, den: seq<Noun>, held: multiset<nat>)
    requires Good(heap, den, held)
    ensures |heap| == |den| && forall p | p in held :: p < |heap| && heap[p].Obj?
  {
    forall p | p in held ensures p < |heap| && heap[p].Obj? { assert Counted(heap, held, p); }
  }

  // ---- what has to be gained ----

  /** The references an edit takes: none while cells are ours alone, and from the first that is not,
      to both parts of every cell on the way and to the part beside the axis. */
  function Gains(heap: seq<Slot>, r: Ref, axe: nat, alone: bool): multiset<nat>
    decreases axe
  {
    if axe <= 1 || Parts(heap, r).None? then multiset{}
    else
      var (h, t) := Parts(heap, r).value;
      if alone && Mutable(heap, r) then if axe <= 3 then multiset{} else Gains(heap, if Cap(axe) == 2 then h else t, Mas(axe), true)
      else if axe == 2 then Own(t)
      else if axe == 3 then Own(h)
      else Own(h) + Own(t) + Gains(heap, if Cap(axe) == 2 then h else t, Mas(axe), false)
  }

  /** Some slot to be gained would be used more often than can be counted. */
  ghost predicate Overdrawn(heap: seq<Slot>, g: multiset<nat>) {
    exists p :: p in g && p < |heap| && heap[p].Obj? && heap[p].use + g[p] > MAX_USE
  }

  /** The slots are in use with the same bodies. */
  predicate SameBodies(heap: seq<Slot>, heap': seq<Slot>) {
    |heap'| == |heap| &&
    forall p | 0 <= p < |heap| :: heap'[p].Obj? == heap[p].Obj? && (heap[p].Obj? ==> heap'[p].body == heap[p].body)
  }

  lemma {:induction false} GainsSame(heap: seq<Slot>, heap': seq<Slot>, r: Ref, axe: nat)
    requires SameBodies(heap, heap')
    ensures Gains(heap', r, axe, false) == Gains(heap, r, axe, false)
    decreases axe
  {
    if axe > 3 && Parts(heap, r).Some? {
      var (h, t) := Parts(heap, r).value;
      GainsSame(heap, heap', if Cap(axe) == 2 then h else t, Mas(axe));
    }
  }

  /** What nothing refers to is not on the way. */
  lemma {:induction false} GainsBelow(heap: seq<Slot>, heap': seq<Slot>, p: nat, r: Ref, axe: nat, alone: bool)
    requires |heap'| == |heap| && (forall q | 0 <= q < |heap| && q != p :: heap'[q] == heap[q]) && In(heap, p) == 0 && r != Ptr(p)
    ensures Gains(heap', r, axe, alone) == Gains(heap, r, axe, alone)
    decreases axe
  {
    hide In;
    if axe > 3 && Parts(heap, r).Some? {
      var (h, t) := Parts(heap, r).value;
      if r.Ptr? { InCovers(heap, r.p, p); }
      GainsBelow(heap, heap', p, if Cap(axe) == 2 then h else t, Mas(axe), alone && Mutable(heap, r));
    }
  }

  lemma OverNone(heap: seq<Slot>)
    ensures !Overdrawn(heap, multiset{})
  {
  }

  lemma OverOne(heap: seq<Slot>, r: Ref)
    requires Live(heap, r)
    ensures Overdrawn(heap, Own(r)) <==> r.Ptr? && heap[r.p].use >= MAX_USE
  {
    if r.Ptr? { assert r.p in Own(r) && Own(r)[r.p] == 1; }
  }

  /** What is gained first counts against what is gained later. */
  lemma OverMore(heap: seq<Slot>, r: Ref, g: multiset<nat>)
    requires Live(heap, r) && !Overdrawn(heap, Own(r))
    ensures Overdrawn(heap, Own(r) + g) <==> Overdrawn(Bumped(heap, r), g)
    ensures SameBodies(heap, Bumped(heap, r))
  {
    OverOne(heap, r);
    var heap', all := Bumped(heap, r), Own(r) + g;
    if p :| p in g && p < |heap'| && heap'[p].Obj? && heap'[p].use + g[p] > MAX_USE {
      assert heap[p].use + all[p] == heap'[p].use + g[p] && p in all;
    }
    if p :| p in all && p < |heap| && heap[p].Obj? && heap[p].use + all[p] > MAX_USE {
      assert heap[p].use + all[p] == heap'[p].use + g[p];
    }
  }

  /** Two gains, one after the other. */
  lemma OverTwo(heap: seq<Slot>, a: Ref, b: Ref)
    requires Live(heap, a) && Live(heap, b)
    ensures
      var one := Bumped(heap, a);
      var two := Bumped(one, b);
      var fails := (a.Ptr? && heap[a.p].use >= MAX_USE) || (b.Ptr? && one[b.p].use >= MAX_USE);
      && (Overdrawn(heap, Own(a) + Own(b)) <==> fails)
      && (!fails ==> SameBodies(heap, two) && forall g :: Overdrawn(two, g) <==> Overdrawn(heap, Own(a) + Own(b) + g))
  {
    hide Overdrawn, Own;
    var one := Bumped(heap, a);
    var two := Bumped(one, b);
    OverOne(heap, a);
    OverOne(one, b);
    if Overdrawn(heap, Own(a)) {
      OverUnion(heap, Own(a), Own(b));
    } else {
      OverMore(heap, a, Own(b));
      if !Overdrawn(one, Own(b)) {
        OverMore(one, b, multiset{});
        forall g ensures Overdrawn(two, g) <==> Overdrawn(heap, Own(a) + Own(b) + g) {
          OverMore(one, b, g);
          OverMore(heap, a, Own(b) + g);
          assert Own(a) + Own(b) + g == Own(a) + (Own(b) + g);
        }
      }
    }
  }

  lemma OverUses(heap: seq<Slot>, heap': seq<Slot>, g: multiset<nat>)
    requires |heap'| == |heap| && forall p | 0 <= p < |heap| :: heap'[p].Obj? == heap[p].Obj? && (heap[p].Obj? ==> heap'[p].use == heap[p].use)
    ensures Overdrawn(heap', g) <==> Overdrawn(heap, g)
  {
  }

  lemma OverUnion(heap: seq<Slot>, f: multiset<nat>, g: multiset<nat>)
    requires Overdrawn(heap, f)
    ensures Overdrawn(heap, f + g) && Overdrawn(heap, g + f)
  {
    var p :| p in f && p < |heap| && heap[p].Obj? && heap[p].use + f[p] > MAX_USE;
    assert p in f + g && (f + g)[p] >= f[p];
  }

  // ---- making a new noun ----

  lemma EditSteps(axe: nat, som: Noun, big: Noun)
    requires axe > 1
    ensures big.Atom? ==> EditDown(axe, som, big) == None
    ensures axe == 2 && big.Cell? ==> EditDown(axe, som, big) == Some(Cell(som, big.tail))
    ensures axe == 3 && big.Cell? ==> EditDown(axe, som, big) == Some(Cell(big.head, som))
    ensures
      axe > 3 && big.Cell? ==>
        Mas(axe) > 1 &&
        var x := EditDown(Mas(axe), som, if Cap(axe) == 2 then big.head else big.tail);
        EditDown(axe, som, big) == if x == None then None else Some(if Cap(axe) == 2 then Cell(x.value, big.tail) else Cell(big.head, x.value))
  {
  }

  lemma KeptTwice(a: seq<Slot>, ad: seq<Noun>, b: seq<Slot>, bd: seq<Noun>, c: seq<Slot>, cd: seq<Noun>)
    requires |a| == |ad| && |b| == |bd| && |c| == |cd| && Kept(a, ad, b, bd) && Kept(b, bd, c, cd)
    ensures Kept(a, ad, c, cd)
  {
  }

  lemma KeptNoun(heap: seq<Slot>, den: seq<Noun>, heap': seq<Slot>, den': seq<Noun>, held': multiset<nat>, r: Ref)
    requires |heap| == |den| && |heap'| == |den'| && Kept(heap, den, heap', den') && Good(heap', den', held')
    requires Own(r) <= held' && (r.Ptr? ==> r.p < |heap|)
    ensures D(den', r) == D(den, r)
  {
    HeldLive(heap', den', held', r);
  }

  lemma ConsKept(heap: seq<Slot>, den: seq<Noun>, s: Slot, n: Noun)
    requires |heap| == |den|
    ensures Kept(heap, den, heap + [s], den + [n])
  {
  }

  lemma Regroup(a: multiset<nat>, b: multiset<nat>, c: multiset<nat>, d: multiset<nat>)
    ensures a + b + c == a + c + b && a + b + c + d == a + b + d + c && a + b + c + d == a + d + b + c
  {
  }

  /** The new cell takes the place of `big`, which is given up. */
  method Replace(road: Road, big: Ref, h: Ref, t: Ref, ghost held: multiset<nat>) returns (pro: Ref)
    requires road.Valid(held + Own(big) + Own(h) + Own(t))
    modifies road
    ensures road.Valid(held + Own(pro)) && Kept(old(road.heap), old(road.den), road.heap, road.den)
    ensures D(road.den, pro) == Cell(D(old(road.den), h), D(old(road.den), t)) && pro == Ptr(|old(road.heap)|)
    ensures forall p: nat | In(old(road.heap), p) == 0 && h != Ptr(p) && t != Ptr(p) :: In(road.heap, p) == 0
  {
    hide Good, In, Counted;
    ghost var heap0, den0 := road.heap, road.den;
    SizesMatch(heap0, den0, held + Own(big) + Own(h) + Own(t));
    pro := road.Cons(h, t, held + Own(big));
    ConsKept(heap0, den0, Obj(1, Pair(h, t)), Cell(D(den0, h), D(den0, t)));
    ghost var heap1, den1 := road.heap, road.den;
    Regroup(held, Own(big), Own(pro), multiset{});
    road.Lose(big, held + Own(pro));
    SizesMatch(road.heap, road.den, held + Own(pro));
    KeptTwice(heap0, den0, heap1, den1, road.heap, road.den);
    KeptNoun(heap1, den1, road.heap, road.den, held + Own(pro), pro);
  }

  /** Build the edited noun beside the old one, which is given up along with `som`. */
  method EditNew(road: Road, big: Ref, axe: nat, som: Ref, ghost held: multiset<nat>) returns (out: Outcome)
    requires road.Valid(held + Own(big) + Own(som)) && axe > 1
    modifies road
    ensures out.Full? <==> Overdrawn(old(road.heap), Gains(old(road.heap), big, axe, false))
    ensures out.Exit? ==> EditDown(axe, D(old(road.den), som), D(old(road.den), big)) == None
    ensures
      out.Done? ==>
        && road.Valid(held + Own(out.ref)) && out.ref.Ptr? && out.ref.p >= |old(road.heap)|
        && EditDown(axe, D(old(road.den), som), D(old(road.den), big)) == Some(D(road.den, out.ref))
        && Kept(old(road.heap), old(road.den), road.heap, road.den) && Aloof(old(road.heap), road.heap, big, som)
    decreases axe
  {
    hide Good, In, Counted, EditDown, Kept, Aloof, D, Own, Overdrawn;
    OwnWithin(held, big, som);
    ghost var heap0, den0, all := road.heap, road.den, held + Own(big) + Own(som);
    InHeap(heap0, den0, all);
    PartsAre(heap0, den0, all, big);
    if Parts(heap0, big).Some? { PartsReferred(heap0, den0, all, big); }
    EditSteps(axe, D(den0, som), D(den0, big));
    OverNone(heap0);
    match Parts(road.heap, big)
    case None => return Exit;
    case Some((h, t)) =>
      var ok, pro;
      HeldLive(heap0, den0, all, som);
      if axe <= 3 {
        var k := if axe == 2 then t else h;
        OverOne(heap0, k);
        ok := road.Gain(k, all);
        if !ok { return Full; }
        ghost var heap1, den1 := road.heap, road.den;
        InHeap(heap1, den1, all + Own(k));
        OwnWithin2(all, som, k);
        KeptNoun(heap0, den0, heap1, den1, all + Own(k), som);
        KeptNoun(heap0, den0, heap1, den1, all + Own(k), k);
        if axe == 2 {
          pro := Replace(road, big, som, t, held);
        } else {
          Regroup(held, Own(big), Own(som), Own(h));
          pro := Replace(road, big, h, som, held);
        }
        InHeap(road.heap, road.den, held + Own(pro));
        KeptTwice(heap0, den0, heap1, den1, road.heap, road.den);
        AloofHere(heap0, heap1, road.heap, big, som, k);
        out := Done(pro);
      } else {
        out := EditNewDeep(road, big, axe, som, held, h, t);
      }
  }

  lemma AloofHere(heap0: seq<Slot>, heap1: seq<Slot>, heap2: seq<Slot>, big: Ref, som: Ref, k: Ref)
    requires |heap0| == |heap1| && (forall p: nat :: In(heap1, p) == In(heap0, p)) && (k.Ptr? ==> In(heap0, k.p) > 0)
    requires forall p: nat | In(heap1, p) == 0 && som != Ptr(p) && k != Ptr(p) :: In(heap2, p) == 0
    ensures Aloof(heap0, heap2, big, som)
  {
    hide In;
  }

  lemma OwnWithin2(all: multiset<nat>, som: Ref, k: Ref)
    requires Own(som) <= all
    ensures Own(som) <= all + Own(k) && Own(k) <= all + Own(k)
  {
  }

  lemma PartsReferred(heap: seq<Slot>, den: seq<Noun>, held: multiset<nat>, r: Ref)
    requires Good(heap, den, held) && Own(r) <= held && Parts(heap, r).Some?
    ensures var (h, t) := Parts(heap, r).value; (h.Ptr? ==> In(heap, h.p) > 0) && (t.Ptr? ==> In(heap, t.p) > 0)
  {
    if r.Ptr? {
      var (h, t) := Parts(heap, r).value;
      if h.Ptr? { InCovers(heap, r.p, h.p); }
      if t.Ptr? { InCovers(heap, r.p, t.p); }
    }
  }

  /** Keep both parts of a cell. */
  method GainTwo(road: Road, a: Ref, b: Ref, ghost som: Ref, ghost all: multiset<nat>) returns (ok: bool)
    requires road.Valid(all) && Live(road.heap, a) && Live(road.heap, b) && Own(som) <= all
    modifies road
    ensures ok <==> !Overdrawn(old(road.heap), Own(a) + Own(b))
    ensures ok ==> forall g :: Overdrawn(road.heap, g) <==> Overdrawn(old(road.heap), Own(a) + Own(b) + g)
    ensures ok ==> SameBodies(old(road.heap), road.heap)
    ensures
      ok ==>
        && road.Valid(all + Own(a) + Own(b)) && Kept(old(road.heap), old(road.den), road.heap, road.den)
        && |road.heap| == |old(road.heap)| == |road.den| == |old(road.den)|
        && D(road.den, a) == D(old(road.den), a) && D(road.den, b) == D(old(road.den), b) && D(road.den, som) == D(old(road.den), som)
    ensures ok ==> forall p: nat :: In(road.heap, p) == In(old(road.heap), p)
  {
    hide Good, In, Counted, Overdrawn, SameBodies, Own;
    ghost var heap0, den0 := road.heap, road.den;
    InHeap(heap0, den0, all);
    HeldLive(heap0, den0, all, som);
    OverTwo(heap0, a, b);
    ok := road.Gain(a, all);
    if !ok { return; }
    ghost var heap1, den1 := road.heap, road.den;
    InHeap(heap1, den1, all + Own(a));
    ok := road.Gain(b, all + Own(a));
    if !ok { return; }
    InHeap(road.heap, road.den, all + Own(a) + Own(b));
    KeptTwice(heap0, den0, heap1, den1, road.heap, road.den);
    KeptNoun(heap0, den0, road.heap, road.den, all + Own(a) + Own(b), som);
    KeptNoun(heap0, den0, road.heap, road.den, all + Own(a) + Own(b), a);
    KeptNoun(heap0, den0, road.heap, road.den, all + Own(a) + Own(b), b);
  }

  /** An edit further down: both parts are kept, the one on the way is edited, and a new cell is made. */
  method EditNewDeep(road: Road, big: Ref, axe: nat, som: Ref, ghost held: multiset<nat>, h: Ref,
          t: Ref) returns (out: Outcome)
    requires road.Valid(held + Own(big) + Own(som)) && axe > 3
    requires Parts(road.heap, big) == Some((h, t)) && Live(road.heap, h) && Live(road.heap, t) && Live(road.heap, som)
    requires D(road.den, big) == Cell(D(road.den, h), D(road.den, t))
    requires (h.Ptr? ==> In(road.heap, h.p) > 0) && (t.Ptr? ==> In(road.heap, t.p) > 0)
    modifies road
    ensures out.Full? <==> Overdrawn(old(road.heap), Gains(old(road.heap), big, axe, false))
    ensures out.Exit? ==> EditDown(axe, D(old(road.den), som), D(old(road.den), big)) == None
    ensures
      out.Done? ==>
        && road.Valid(held + Own(out.ref)) && out.ref.Ptr? && out.ref.p >= |old(road.heap)|
        && EditDown(axe, D(old(road.den), som), D(old(road.den), big)) == Some(D(road.den, out.ref))
        && Kept(old(road.heap), old(road.den), road.heap, road.den) && Aloof(old(road.heap), road.heap, big, som)
    decreases axe, 0
  {
    hide Good, In, Counted, EditDown, Parts, Kept, Aloof, D, Own, Gains, Overdrawn, SameBodies;
    ghost var heap0, den0, all := road.heap, road.den, held + Own(big) + Own(som);
    InHeap(heap0, den0, all);
    EditSteps(axe, D(den0, som), D(den0, big));
    var down, side := if Cap(axe) == 2 then h else t, if Cap(axe) == 2 then t else h;
    OwnWithin(held, big, som);
    GainsDeep(heap0, big, axe, h, t, down, side);
    var ok := GainTwo(road, side, down, som, all);
    if !ok {
      OverUnion(heap0, Own(side) + Own(down), Gains(heap0, down, Mas(axe), false));
      return Full;
    }
    GainsSame(heap0, road.heap, down, Mas(axe));
    ghost var heap2, den2, all2 := road.heap, road.den, all + Own(side) + Own(down);
    OwnLast(all, side, down);
    Shuffle(held, Own(big), Own(som), Own(side), Own(down));
    out := EditNew(road, down, Mas(axe), som, held + Own(big) + Own(side));
    if !out.Done? { return; }
    var x := out.ref;
    ghost var heap3, den3 := road.heap, road.den;
    InHeap(heap3, den3, held + Own(big) + Own(side) + Own(x));
    KeptTwice(heap0, den0, heap2, den2, heap3, den3);
    OwnLast(held + Own(big), side, x);
    HeldLive(heap2, den2, all2, side);
    KeptNoun(heap2, den2, heap3, den3, held + Own(big) + Own(side) + Own(x), side);
    var pro;
    if Cap(axe) == 2 {
      Regroup(held, Own(big), Own(side), Own(x));
      pro := Replace(road, big, x, side, held);
    } else {
      pro := Replace(road, big, side, x, held);
    }
    InHeap(road.heap, road.den, held + Own(pro));
    KeptTwice(heap0, den0, heap3, den3, road.heap, road.den);
    AloofThrough(heap0, heap2, heap3, road.heap, big, som, down, side, x);
    out := Done(pro);
  }

  lemma GainsDeep(heap: seq<Slot>, r: Ref, axe: nat, h: Ref, t: Ref, down: Ref, side: Ref)
    requires axe > 3 && Parts(heap, r) == Some((h, t))
    requires down == (if Cap(axe) == 2 then h else t) && side == if Cap(axe) == 2 then t else h
    ensures Gains(heap, r, axe, false) == Own(side) + Own(down) + Gains(heap, down, Mas(axe), false)
  {
  }

  lemma AloofThrough(heap0: seq<Slot>, heap2: seq<Slot>, heap3: seq<Slot>, heap4: seq<Slot>, big: Ref,
          som: Ref, down: Ref, side: Ref, x: Ref)
    requires |heap0| == |heap2| <= |heap3| && (forall p: nat :: In(heap2, p) == In(heap0, p)) && Aloof(heap2, heap3, down, som)
    requires (side.Ptr? ==> In(heap0, side.p) > 0) && (down.Ptr? ==> In(heap0, down.p) > 0) && x.Ptr? && x.p >= |heap0|
    requires forall p: nat | In(heap3, p) == 0 && side != Ptr(p) && x != Ptr(p) :: In(heap4, p) == 0
    ensures Aloof(heap0, heap4, big, som)
  {
    hide In;
  }

  lemma OwnWithin(held: multiset<nat>, big: Ref, som: Ref)
    ensures Own(big) <= held + Own(big) + Own(som) && Own(som) <= held + Own(big) + Own(som)
  {
  }

  lemma OwnLast(held: multiset<nat>, r: Ref, x: Ref)
    ensures Own(r) <= held + Own(r) + Own(x) && Own(x) <= held + Own(r) + Own(x)
  {
  }

  lemma Shuffle(a: multiset<nat>, b: multiset<nat>, c: multiset<nat>, d: multiset<nat>, e: multiset<nat>)
    ensures a + b + c + d + e == a + b + d + e + c
  {
  }

  // ---- editing in place ----

  /** A cell of this road with a single reference to it. */
  predicate Mutable(heap: seq<Slot>, r: Ref) {
    r.Ptr? && r.p < |heap| && heap[r.p].Obj? && heap[r.p].body.Pair? && heap[r.p].use == 1
  }

  /** The one reference to a mutable cell is ours. */
  lemma Sole(heap: seq<Slot>, den: seq<Noun>, held: multiset<nat>, big: Ref, som: Ref)
    requires Good(heap, den, held + Own(big) + Own(som)) && Mutable(heap, big)
    ensures In(heap, big.p) == 0 && held[big.p] == 0 && som != big
    ensures heap[big.p].body.hed != big && heap[big.p].body.tel != big
  {
    hide In;
    UseIs(heap, den, held + Own(big) + Own(som), big.p);
    InCovers(heap, big.p, big.p);
  }

  /** A cell with one part replaced. */
  function With(b: Body, left: bool, x: Ref): Body
    requires b.Pair?
  {
    if left then Pair(x, b.tel) else Pair(b.hed, x)
  }

  function Part(b: Body, left: bool): Ref
    requires b.Pair?
  {
    if left then b.hed else b.tel
  }

  /** Put `x` into a cell that only we can see; what was there is then held. */
  method PutPart(road: Road, p: nat, left: bool, x: Ref, ghost held: multiset<nat>) returns (was: Ref)
    requires road.Valid(held + Own(x)) && p < |road.heap| && road.heap[p].Obj? && road.heap[p].body.Pair?
    requires In(road.heap, p) == 0 && x != Ptr(p)
    modifies road
    ensures was == Part(old(road.heap[p].body), left) && road.Valid(held + Own(was))
    ensures road.heap == old(road.heap)[p := old(road.heap[p]).(body := With(old(road.heap[p].body), left, x))]
    ensures |road.den| == |old(road.den)| == |road.heap| && (forall q | 0 <= q < |road.den| && q != p :: road.den[q] == old(road.den)[q])
    ensures
      var b := old(road.heap[p].body);
      road.den[p] == if left then Cell(D(old(road.den), x), D(old(road.den), b.tel)) else Cell(D(old(road.den), b.hed), D(old(road.den), x))
    ensures forall q: nat | In(old(road.heap), q) == 0 && x != Ptr(q) :: In(road.heap, q) == 0
  {
    hide In, Good, Counted;
    ghost var heap0, den0 := road.heap, road.den;
    var b := road.heap[p].body;
    var b' := With(b, left, x);
    was := Part(b, left);
    SizesMatch(heap0, den0, held + Own(x));
    InCovers(heap0, p, p);
    forall q: nat ensures Exchanged(held + Own(x), b', held + Own(was), b, q) {}
    Rebodied(heap0, den0, held + Own(x), held + Own(was), p, b');
    road.den := den0[p := BodyNoun(den0, b')];
    road.heap := road.heap[p := road.heap[p].(body := b')];
    forall q: nat | In(heap0, q) == 0 && x != Ptr(q) ensures In(road.heap, q) == 0 {
      InUpdate(heap0, p, road.heap[p], q);
      InCovers(heap0, p, q);
    }
  }

  /** Edit in place while the cells on the way are ours alone, and beside them from then on. */
  method EditOrMutate(road: Road, big: Ref, axe: nat, som: Ref, ghost held: multiset<nat>) returns (out: Outcome)
    requires road.Valid(held + Own(big) + Own(som)) && axe > 1
    modifies road
    ensures out.Full? <==> Overdrawn(old(road.heap), Gains(old(road.heap), big, axe, true))
    ensures out.Exit? ==> EditDown(axe, D(old(road.den), som), D(old(road.den), big)) == None
    ensures
      out.Done? ==>
        && road.Valid(held + Own(out.ref)) && (out.ref == big || (out.ref.Ptr? && out.ref.p >= |old(road.heap)|))
        && EditDown(axe, D(old(road.den), som), D(old(road.den), big)) == Some(D(road.den, out.ref))
        && Spared(held, old(road.heap), old(road.den), road.heap, road.den)
        && |old(road.heap)| <= |road.heap| && Aloof(old(road.heap), road.heap, big, som)
    decreases axe, 1
  {
    hide Good, In, Counted, EditDown, Gains, Overdrawn;
    ghost var heap0, den0, all := road.heap, road.den, held + Own(big) + Own(som);
    InHeap(heap0, den0, all);
    if Mutable(road.heap, big) {
      out := Mutate(road, big, axe, som, held);
    } else {
      GainsBeside(heap0, big, axe);
      out := EditNew(road, big, axe, som, held);
      if out.Done? {
        InHeap(road.heap, road.den, held + Own(out.ref));
        Assoc3(held, Own(big), Own(som));
        HeldInHeap(heap0, den0, held, Own(big) + Own(som));
        SparedByKept(held, Own(out.ref), heap0, den0, road.heap, road.den);
      }
    }
  }

  lemma GainsBeside(heap: seq<Slot>, r: Ref, axe: nat)
    requires !Mutable(heap, r)
    ensures Gains(heap, r, axe, true) == Gains(heap, r, axe, false)
  {
  }

  lemma GainsInPlace(heap: seq<Slot>, p: nat, axe: nat, left: bool)
    requires Mutable(heap, Ptr(p)) && axe > 1 && left == (Cap(axe) == 2)
    ensures Gains(heap, Ptr(p), axe, true) == if axe <= 3 then multiset{} else Gains(heap, Part(heap[p].body, left), Mas(axe), true)
  {
  }

  lemma Assoc3(a: multiset<nat>, b: multiset<nat>, c: multiset<nat>)
    ensures a + b + c == a + (b + c) && a + c + b == a + (b + c)
  {
  }

  lemma HeldInHeap(heap: seq<Slot>, den: seq<Noun>, held: multiset<nat>, rest: multiset<nat>)
    requires Good(heap, den, held + rest)
    ensures forall p | p in held :: p < |heap|
  {
    forall p | p in held ensures p < |heap| { assert Counted(heap, held + rest, p); }
  }

  lemma SparedByKept(held: multiset<nat>, own: multiset<nat>, heap: seq<Slot>, den: seq<Noun>,
          heap': seq<Slot>, den': seq<Noun>)
    requires Good(heap', den', held + own) && |heap| == |den| && Kept(heap, den, heap', den') && forall p | p in held :: p < |heap|
    ensures Spared(held, heap, den, heap', den')
  {
    hide In;
    forall p | p in held ensures SparedAt(heap, den, heap', den', p) { assert Counted(heap', held + own, p); }
  }

  method Mutate(road: Road, big: Ref, axe: nat, som: Ref, ghost held: multiset<nat>) returns (out: Outcome)
    requires road.Valid(held + Own(big) + Own(som)) && axe > 1 && Mutable(road.heap, big)
    modifies road
    ensures out.Full? <==> Overdrawn(old(road.heap), Gains(old(road.heap), big, axe, true))
    ensures out.Exit? ==> EditDown(axe, D(old(road.den), som), D(old(road.den), big)) == None
    ensures
      out.Done? ==>
        && road.Valid(held + Own(out.ref)) && out.ref == big
        && EditDown(axe, D(old(road.den), som), D(old(road.den), big)) == Some(D(road.den, out.ref))
        && Spared(held, old(road.heap), old(road.den), road.heap, road.den)
        && |old(road.heap)| <= |road.heap| && Aloof(old(road.heap), road.heap, big, som)
    decreases axe, 0
  {
    hide Good, In, Counted, EditDown, Own, Gains, Overdrawn;
    ghost var heap0, den0, all := road.heap, road.den, held + Own(big) + Own(som);
    InHeap(heap0, den0, all);
    Sole(heap0, den0, held, big, som);
    OwnWithin(held, big, som);
    PartsAre(heap0, den0, all, big);
    EditSteps(axe, D(den0, som), D(den0, big));
    var p := big.p;
    GainsInPlace(heap0, p, axe, Cap(axe) == 2);
    OverNone(heap0);
    if axe <= 3 {
      var was := PutPart(road, p, axe == 2, som, held + Own(big));
      SparedPut(held, heap0, den0, road.heap, road.den, p);
      ghost var heap1, den1 := road.heap, road.den;
      InHeap(heap1, den1, held + Own(big) + Own(was));
      road.Lose(was, held + Own(big));
      InHeap(road.heap, road.den, held + Own(big));
      SparedByKept(held, Own(big), heap1, den1, road.heap, road.den);
      SparedTwice(held, heap0, den0, heap1, den1, road.heap, road.den);
      OwnHeld(held, big);
      KeptNoun(heap1, den1, road.heap, road.den, held + Own(big), big);
      out := Done(big);
    } else {
      out := MutateDeep(road, big, axe, som, held);
    }
  }

  lemma OwnHeld(held: multiset<nat>, r: Ref)
    ensures Own(r) <= held + Own(r) && (r.Ptr? ==> r.p in held + Own(r))
  {
  }

  /** Changing a slot that is not held spares what is. */
  lemma SparedPut(held: multiset<nat>, heap: seq<Slot>, den: seq<Noun>, heap': seq<Slot>, den': seq<Noun>, p: nat)
    requires |heap| == |den| == |heap'| == |den'| && p < |heap| && held[p] == 0
    requires forall q | q in held :: q < |heap| && heap[q].Obj?
    requires forall q | 0 <= q < |heap| && q != p :: heap'[q] == heap[q] && den'[q] == den[q]
    ensures Spared(held, heap, den, heap', den')
  {
  }

  /** The part on the way is taken out of the cell, edited, and put back. */
  method MutateDeep(road: Road, big: Ref, axe: nat, som: Ref, ghost held: multiset<nat>) returns (out: Outcome)
    requires road.Valid(held + Own(big) + Own(som)) && axe > 3 && Mutable(road.heap, big)
    requires In(road.heap, big.p) == 0 && held[big.p] == 0 && som != big && |road.heap| == |road.den|
    modifies road
    ensures out.Full? <==> Overdrawn(old(road.heap), Gains(old(road.heap), big, axe, true))
    ensures out.Exit? ==> EditDown(axe, D(old(road.den), som), D(old(road.den), big)) == None
    ensures
      out.Done? ==>
        && road.Valid(held + Own(out.ref)) && out.ref == big
        && EditDown(axe, D(old(road.den), som), D(old(road.den), big)) == Some(D(road.den, out.ref))
        && Spared(held, old(road.heap), old(road.den), road.heap, road.den)
        && |old(road.heap)| <= |road.heap| && Aloof(old(road.heap), road.heap, big, som)
    decreases axe, 0, 0
  {
    hide Good, In, Counted, EditDown, Own, Aloof, Gains, Overdrawn;
    ghost var heap0, den0, all := road.heap, road.den, held + Own(big) + Own(som);
    InHeap(heap0, den0, all);
    OwnWithin(held, big, som);
    PartsAre(heap0, den0, all, big);
    EditSteps(axe, D(den0, som), D(den0, big));
    var p, left := big.p, Cap(axe) == 2;
    NothingOwned(held + Own(big) + Own(som));
    var tar := PutPart(road, p, left, Far(Atom(0)), held + Own(big) + Own(som));
    ghost var heap1, den1 := road.heap, road.den;
    OtherNoun(den0, den1, som, p);
    TarNoun(heap0, den0, all, heap1, den1, p, tar, left);
    GainsInPlace(heap0, p, axe, left);
    GainsBelow(heap0, heap1, p, tar, Mas(axe), true);
    OverUses(heap0, heap1, Gains(heap0, tar, Mas(axe), true));
    SparedPut(held, heap0, den0, heap1, den1, p);
    Regroup(held, Own(big), Own(som), Own(tar));
    InHeap(heap1, den1, held + Own(big) + Own(tar) + Own(som));
    out := EditOrMutate(road, tar, Mas(axe), som, held + Own(big));
    if !out.Done? { return; }
    var x := out.ref;
    ghost var heap2, den2 := road.heap, road.den;
    InHeap(heap2, den2, held + Own(big) + Own(x));
    BigSpared(held, big, heap1, den1, heap2, den2);
    AloofAt(heap1, heap2, tar, som, p);
    OwnLast(held, big, x);
    SideStays(heap1, den1, heap2, den2, held + Own(big) + Own(x), p, left);
    var hole := PutPart(road, p, left, x, held + Own(big));
    NothingOwned(held + Own(big));
    SparedPut(held, heap2, den2, road.heap, road.den, p);
    SparedTwice(held, heap0, den0, heap1, den1, heap2, den2);
    SparedTwice(held, heap0, den0, heap2, den2, road.heap, road.den);
    AloofDeep(heap0, heap1, heap2, road.heap, p, left, big, som, tar, x);
    out := Done(big);
  }

  lemma AloofAt(heap: seq<Slot>, heap': seq<Slot>, a: Ref, b: Ref, p: nat)
    requires Aloof(heap, heap', a, b) && p < |heap| && In(heap, p) == 0 && a != Ptr(p) && b != Ptr(p)
    ensures In(heap', p) == 0
  {
  }

  lemma AloofDeep(heap0: seq<Slot>, heap1: seq<Slot>, heap2: seq<Slot>, heap3: seq<Slot>, p: nat, left: bool,
          big: Ref, som: Ref, tar: Ref, x: Ref)
    requires p < |heap0| == |heap1| && heap0[p].Obj? && heap0[p].body.Pair? && tar == Part(heap0[p].body, left)
    requires forall q: nat | In(heap0, q) == 0 :: In(heap1, q) == 0
    requires Aloof(heap1, heap2, tar, som) && (x == tar || (x.Ptr? && x.p >= |heap1|))
    requires forall q: nat | In(heap2, q) == 0 && x != Ptr(q) :: In(heap3, q) == 0
    ensures Aloof(heap0, heap3, big, som)
  {
    hide In;
    forall q | 0 <= q < |heap0| && In(heap0, q) == 0 && big != Ptr(q) && som != Ptr(q) ensures In(heap3, q) == 0 { InCovers(heap0, p, q); }
  }

  lemma NothingOwned(held: multiset<nat>)
    ensures held + Own(Far(Atom(0))) == held
  {
  }

  lemma OtherNoun(den: seq<Noun>, den': seq<Noun>, r: Ref, p: nat)
    requires |den| == |den'| && p < |den| && r != Ptr(p) && forall q | 0 <= q < |den| && q != p :: den'[q] == den[q]
    ensures D(den', r) == D(den, r)
  {
  }

  /** Taking a part out leaves its noun, and the other part's. */
  lemma TarNoun(heap0: seq<Slot>, den0: seq<Noun>, held: multiset<nat>, heap1: seq<Slot>, den1: seq<Noun>,
          p: nat, tar: Ref, left: bool)
    requires Good(heap0, den0, held) && p < |heap0| == |den1| == |den0| && heap0[p].Obj? && heap0[p].body.Pair? && In(heap0, p) == 0
    requires tar == Part(heap0[p].body, left) && forall q | 0 <= q < |den0| && q != p :: den1[q] == den0[q]
    ensures
      var b := heap0[p].body;
      tar != Ptr(p) && D(den1, tar) == D(den0, tar) && D(den1, b.hed) == D(den0, b.hed) && D(den1, b.tel) == D(den0, b.tel)
  {
    InCovers(heap0, p, p);
  }

  lemma BigSpared(held: multiset<nat>, big: Ref, heap: seq<Slot>, den: seq<Noun>, heap': seq<Slot>, den': seq<Noun>)
    requires Spared(held + Own(big), heap, den, heap', den') && big.Ptr?
    ensures SparedAt(heap, den, heap', den', big.p) && Spared(held, heap, den, heap', den')
  {
    assert big.p in held + Own(big);
    forall q | q in held ensures SparedAt(heap, den, heap', den', q) { assert q in held + Own(big); }
  }

  /** The other part of a spared cell denotes what it did. */
  lemma SideStays(heap: seq<Slot>, den: seq<Noun>, heap': seq<Slot>, den': seq<Noun>, held': multiset<nat>,
          p: nat, left: bool)
    requires |heap| == |den| && Good(heap', den', held') && p < |heap| && heap[p].Obj? && heap[p].body.Pair?
    requires |heap'| == |den'| && SparedAt(heap, den, heap', den', p)
    requires den[p] == Cell(D(den, heap[p].body.hed), D(den, heap[p].body.tel))
    ensures D(den', Part(heap[p].body, !left)) == D(den, Part(heap[p].body, !left))
  {
    hide In;
    assert Means(heap', den', p);
  }

  /** `u3i_edit`: replace the part of a noun at an axis. Every noun held by others is as it was,
      even when cells were changed in place on the way. */
  method EditNoun(road: Road, big: Ref, axe: nat, som: Ref, ghost held: multiset<nat>) returns (out: Outcome)
    requires road.Valid(held + Own(big) + Own(som))
    modifies road
    ensures out.Full? <==> Overdrawn(old(road.heap), Gains(old(road.heap), big, axe, true))
    ensures out.Exit? ==> Nouns.Edit(axe, D(old(road.den), som), D(old(road.den), big)) == None
    ensures
      out.Done? ==>
        && road.Valid(held + Own(out.ref))
        && Nouns.Edit(axe, D(old(road.den), som), D(old(road.den), big)) == Some(D(road.den, out.ref))
        && Spared(held, old(road.heap), old(road.den), road.heap, road.den)
        && forall r: Ref | Own(r) <= held :: D(road.den, r) == D(old(road.den), r)
  {
    hide Good, In, Counted, EditDown, Edit, Own, Overdrawn;
    ghost var heap0, den0 := road.heap, road.den;
    EditDownIsEdit(axe, D(den0, som), D(den0, big));
    EditEnds(D(den0, som), D(den0, big));
    OverNone(heap0);
    if axe == 0 {
      return Exit;
    } else if axe == 1 {
      Regroup(held, Own(big), Own(som), multiset{});
      InHeap(heap0, den0, held + Own(som) + Own(big));
      road.Lose(big, held + Own(som));
      InHeap(road.heap, road.den, held + Own(som));
      Assoc3(held, Own(big), Own(som));
      HeldInHeap(heap0, den0, held, Own(big) + Own(som));
      SparedByKept(held, Own(som), heap0, den0, road.heap, road.den);
      OwnHeld(held, som);
      HeldLive(road.heap, road.den, held + Own(som), som);
      KeptNoun(heap0, den0, road.heap, road.den, held + Own(som), som);
      out := Done(som);
    } else {
      out := EditOrMutate(road, big, axe, som, held);
    }
    if out.Done? { SparedNouns(held, heap0, den0, road.heap, road.den); }
  }

  lemma EditEnds(som: Noun, big: Noun)
    ensures EditDown(0, som, big) == None && EditDown(1, som, big) == Some(som)
  {
  }

  lemma SparedNouns(held: multiset<nat>, heap: seq<Slot>, den: seq<Noun>, heap': seq<Slot>, den': seq<Noun>)
    requires Spared(held, heap, den, heap', den')
    ensures forall r: Ref | Own(r) <= held :: D(den', r) == D(den, r)
  {
    forall r: Ref | Own(r) <= held ensures D(den', r) == D(den, r) {
      if r.Ptr? {
        assert r.p in Own(r);
        assert SparedAt(heap, den, heap', den', r.p);
      }
    }
  }
}
