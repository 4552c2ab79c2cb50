/** The reference-counted nouns of one road (pkg/urbit/noun/allocate.c, `_me_gain_*`, `_me_lose_*`):
    atoms and cells in numbered slots, each with its use count. */
module RefHeap {
  import opened Nouns

  /** A noun off this road (a direct atom or a senior noun, neither of them counted), or a slot. */
  datatype Ref = Far(noun: Noun) | Ptr(p: nat)

  datatype Body = Words(val: nat) | Pair(hed: Ref, tel: Ref)

  datatype Slot = Free | Obj(use: nat, body: Body)

  /** Where use counts stop. */
  const MAX_USE: nat := 0x7fff_ffff

  /** One more use of what `r` refers to. */
  function Bumped(heap: seq<Slot>, r: Ref): seq<Slot> {
    if r.Ptr? && r.p < |heap| && heap[r.p].Obj? then heap[r.p := heap[r.p].(use := heap[r.p].use + 1)] else heap
  }

  // ---- counting references ----

  function Hit(r: Ref, p: nat): nat { if r == Ptr(p) then 1 else 0 }

  /** References to `p` in a slot. */
  function Refs(s: Slot, p: nat): nat {
    if s.Obj? && s.body.Pair? then Hit(s.body.hed, p) + Hit(s.body.tel, p) else 0
  }

  /** References to `p` in the heap. */
  function In(heap: seq<Slot>, p: nat): nat {
    if heap == [] then 0 else Refs(heap[|heap| - 1], p) + In(heap[..|heap| - 1], p)
  }

  lemma {:induction false} InUpdate(heap: seq<Slot>, i: nat, s: Slot, p: nat)
    requires i < |heap|
    ensures In(heap[i := s], p) + Refs(heap[i], p) == In(heap, p) + Refs(s, p)
  {
    hide Refs;
    var k := |heap| - 1;
    if i == k {
      assert heap[i := s][..k] == heap[..k];
    } else {
      assert heap[i := s][..k] == heap[..k][i := s];
      InUpdate(heap[..k], i, s, p);
    }
  }

  lemma InAppend(heap: seq<Slot>, s: Slot, p: nat)
    ensures In(heap + [s], p) == In(heap, p) + Refs(s, p)
  {
    assert (heap + [s])[..|heap|] == heap;
  }

  lemma {:induction false} InCovers(heap: seq<Slot>, i: nat, p: nat)
    requires i < |heap|
    ensures Refs(heap[i], p) <= In(heap, p)
  {
    if i < |heap| - 1 { InCovers(heap[..|heap| - 1], i, p); }
  }

  // ---- what references denote ----

  /** The noun of a reference, given those of the slots. */
  function D(den: seq<Noun>, r: Ref): Noun {
    match r
    case Far(n) => n
    case Ptr(p) => if p < |den| then den[p] else Atom(0)
  }

  function BodyNoun(den: seq<Noun>, b: Body): Noun {
    match b
    case Words(v) => Atom(v)
    case Pair(h, t) => Cell(D(den, h), D(den, t))
  }

  function Own(r: Ref): multiset<nat> { if r.Ptr? then multiset{r.p} else multiset{} }

  /** Slot `p` is in use as often as it is referred to, from the heap or by a holder; a slot that
      is not in use is not referred to at all. */
  predicate Counted(heap: seq<Slot>, held: multiset<nat>, p: nat) {
    if p < |heap| && heap[p].Obj? then 0 < heap[p].use == In(heap, p) + held[p]
    else In(heap, p) + held[p] == 0
  }

  predicate Means(heap: seq<Slot>, den: seq<Noun>, p: nat)
    requires p < |heap| == |den|
  {
    heap[p].Obj? ==> den[p] == BodyNoun(den, heap[p].body)
  }

  /** The heap denotes `den`, with `held` the references held outside it. As nouns are finite, no
      slot can be reached from itself. */
  ghost predicate Good(heap: seq<Slot>, den: seq<Noun>, held: multiset<nat>) {
    && |den| == |heap| && (forall p: nat :: Counted(heap, held, p))
    && (forall p | 0 <= p < |heap| :: Means(heap, den, p))
  }

  predicate Live(heap: seq<Slot>, r: Ref) { r.Ptr? ==> r.p < |heap| && heap[r.p].Obj? }

  lemma HeldLive(heap: seq<Slot>, den: seq<Noun>, held: multiset<nat>, r: Ref)
    requires Good(heap, den, held) && Own(r) <= held
    ensures Live(heap, r)
  {
    if r.Ptr? {
      assert r.p in Own(r);
      assert Counted(heap, held, r.p);
    }
  }

  lemma PartLive(heap: seq<Slot>, den: seq<Noun>, held: multiset<nat>, p: nat)
    requires Good(heap, den, held) && p < |heap| && heap[p].Obj? && heap[p].body.Pair?
    ensures Live(heap, heap[p].body.hed) && Live(heap, heap[p].body.tel)
    ensures den[p] == Cell(D(den, heap[p].body.hed), D(den, heap[p].body.tel))
  {
    assert Means(heap, den, p);
    var h, t := heap[p].body.hed, heap[p].body.tel;
    if h.Ptr? {
      InCovers(heap, p, h.p);
      assert Counted(heap, held, h.p);
    }
    if t.Ptr? {
      InCovers(heap, p, t.p);
      assert Counted(heap, held, t.p);
    }
  }

  /** Change the use count of a slot. */
  lemma Recount(heap: seq<Slot>, den: seq<Noun>, held: multiset<nat>, held': multiset<nat>, p: nat, use: nat)
    requires Good(heap, den, held) && p < |heap| && heap[p].Obj? && 0 < use == In(heap, p) + held'[p]
    requires forall q | q != p :: held'[q] == held[q]
    ensures Good(heap[p := heap[p].(use := use)], den, held')
  {
    var heap' := heap[p := heap[p].(use := use)];
    forall q: nat ensures Counted(heap', held', q) {
      InUpdate(heap, p, heap'[p], q);
      assert Counted(heap, held, q);
    }
    forall q | 0 <= q < |heap'| ensures Means(heap', den, q) { assert Means(heap, den, q); }
  }

  /** What a body refers to. */
  function Owned(b: Body): multiset<nat> { if b.Pair? then Own(b.hed) + Own(b.tel) else multiset{} }

  lemma OwnedHits(b: Body, use: nat, q: nat)
    ensures Owned(b)[q] == Refs(Obj(use, b), q)
  {
  }

  /** Drop a slot held once and not referred to: what it referred to is then held instead. */
  lemma Dropped(heap: seq<Slot>, den: seq<Noun>, held: multiset<nat>, p: nat)
    requires Good(heap, den, held + multiset{p}) && p < |heap| && heap[p].Obj? && heap[p].use == 1
    ensures Good(heap[p := Free], den, held + Owned(heap[p].body))
  {
    hide In, Owned, Refs;
    var heap' := heap[p := Free];
    InCovers(heap, p, p);
    assert Counted(heap, held + multiset{p}, p);
    forall q: nat ensures Counted(heap', held + Owned(heap[p].body), q) {
      InUpdate(heap, p, Free, q);
      NoRefs(q);
      assert Counted(heap, held + multiset{p}, q);
      OwnedHits(heap[p].body, 1, q);
    }
    forall q | 0 <= q < |heap'| ensures Means(heap', den, q) { assert Means(heap, den, q); }
  }

  lemma NoRefs(q: nat)
    ensures Refs(Free, q) == 0
  {
  }

  /** What is put into a pair is no longer held, and what was in it is. */
  predicate Exchanged(held: multiset<nat>, b: Body, held': multiset<nat>, was: Body, q: nat)
    requires b.Pair? && was.Pair?
  {
    held[q] + Hit(was.hed, q) + Hit(was.tel, q) == held'[q] + Hit(b.hed, q) + Hit(b.tel, q)
  }

  /** Put a body into a slot that no other reference sees: only that slot's noun changes. */
  lemma Rebodied(heap: seq<Slot>, den: seq<Noun>, held: multiset<nat>, held': multiset<nat>, p: nat, b: Body)
    requires Good(heap, den, held) && p < |heap| && heap[p].Obj? && In(heap, p) == 0 && b.Pair? && heap[p].body.Pair?
    requires forall q: nat :: Exchanged(held, b, held', heap[p].body, q)
    requires b.hed != Ptr(p) && b.tel != Ptr(p)
    ensures Good(heap[p := heap[p].(body := b)], den[p := BodyNoun(den, b)], held')
  {
    hide In;
    var s := heap[p].(body := b);
    var heap', den' := heap[p := s], den[p := BodyNoun(den, b)];
    InCovers(heap, p, p);
    forall q: nat ensures Counted(heap', held', q) {
      InUpdate(heap, p, s, q);
      assert Counted(heap, held, q);
      assert Exchanged(held, b, held', heap[p].body, q);
    }
    forall q | 0 <= q < |heap'| ensures Means(heap', den', q) {
      assert Means(heap, den, q);
      InCovers(heap, q, p);
    }
  }

  lemma OwnHit(b: Body, q: nat)
    requires b.Pair?
    ensures Own(b.hed)[q] == Hit(b.hed, q) && Own(b.tel)[q] == Hit(b.tel, q)
  {
  }

  /** Add a slot for a new cell. */
  lemma Added(heap: seq<Slot>, den: seq<Noun>, held: multiset<nat>, h: Ref, t: Ref)
    requires Good(heap, den, held + Own(h) + Own(t))
    ensures Good(heap + [Obj(1, Pair(h, t))], den + [Cell(D(den, h), D(den, t))], held + multiset{|heap|})
    ensures held[|heap|] == 0
  {
    var s := Obj(1, Pair(h, t));
    var heap', den' := heap + [s], den + [Cell(D(den, h), D(den, t))];
    HeldLive(heap, den, held + Own(h) + Own(t), h);
    HeldLive(heap, den, held + Own(h) + Own(t), t);
    assert Counted(heap, held + Own(h) + Own(t), |heap|);
    forall q: nat ensures Counted(heap', held + multiset{|heap|}, q) {
      InAppend(heap, s, q);
      assert Counted(heap, held + Own(h) + Own(t), q);
      OwnHit(s.body, q);
    }
    forall q | 0 <= q < |heap'| ensures Means(heap', den', q) {
      if q < |heap| {
        assert Means(heap, den, q);
        if heap[q].Obj? && heap[q].body.Pair? { PartLive(heap, den, held + Own(h) + Own(t), q); }
      }
    }
  }

  /** Add a slot for a new atom. */
  lemma AddedAtom(heap: seq<Slot>, den: seq<Noun>, held: multiset<nat>, v: nat)
    requires Good(heap, den, held)
    ensures Good(heap + [Obj(1, Words(v))], den + [Atom(v)], held + multiset{|heap|}) && held[|heap|] == 0
  {
    var s := Obj(1, Words(v));
    var heap', den' := heap + [s], den + [Atom(v)];
    assert Counted(heap, held, |heap|);
    forall q: nat ensures Counted(heap', held + multiset{|heap|}, q) {
      InAppend(heap, s, q);
      assert Counted(heap, held, q);
    }
    forall q | 0 <= q < |heap'| ensures Means(heap', den', q) {
      if q < |heap| {
        assert Means(heap, den, q);
        if heap[q].Obj? && heap[q].body.Pair? { PartLive(heap, den, held, q); }
      }
    }
  }

  /** Nouns that stay as they were: slots in use now were in use before, with the same body and noun. */
  ghost predicate Kept(heap: seq<Slot>, den: seq<Noun>, heap': seq<Slot>, den': seq<Noun>)
    requires |heap| == |den| && |heap'| == |den'|
  {
    |heap| <= |heap'| && forall p | 0 <= p < |heap| && heap'[p].Obj? :: heap[p].Obj? && heap'[p].body == heap[p].body && den'[p] == den[p]
  }

  class Road {
    var heap: seq<Slot>
    ghost var den: seq<Noun>

    ghost predicate Valid(held: multiset<nat>)
      reads this
    {
      Good(heap, den, held)
    }

    constructor ()
      ensures Valid(multiset{}) && heap == []
    {
      heap, den := [], [];
      new;
      forall p: nat ensures Counted([], multiset{}, p) {}
    }

    /** Take another reference; it fails at the highest count. */
    method Gain(r: Ref, ghost held: multiset<nat>) returns (ok: bool)
      requires Valid(held) && Live(heap, r)
      modifies this`heap
      ensures ok ==> Valid(held + Own(r)) && |heap| == |old(heap)| && Kept(old(heap), den, heap, den)
      ensures ok ==> forall s :: Live(old(heap), s) ==> Live(heap, s)
      ensures forall p: nat :: In(heap, p) == In(old(heap), p)
      ensures !ok ==> heap == old(heap)
      ensures ok <==> !(r.Ptr? && old(heap)[r.p].use >= MAX_USE)
      ensures ok ==> heap == Bumped(old(heap), r)
    {
      hide In;
      if r.Far? {
        assert held + Own(r) == held;
        return true;
      }
      if heap[r.p].use >= MAX_USE { return false; }
      assert Counted(heap, held, r.p);
      Recount(heap, den, held, held + Own(r), r.p, heap[r.p].use + 1);
      SameRefs(heap, r.p, heap[r.p].use + 1);
      heap := heap[r.p := heap[r.p].(use := heap[r.p].use + 1)];
      ok := true;
    }

    /** Give a reference up; a slot no longer referred to is freed, and its parts given up. */
    method Lose(r: Ref, ghost held: multiset<nat>)
      requires Valid(held + Own(r))
      modifies this`heap
      ensures Valid(held) && |heap| == |old(heap)| && Kept(old(heap), den, heap, den)
      ensures forall p: nat :: In(heap, p) <= In(old(heap), p)
      decreases D(den, r), 1
    {
      hide In, Good, Counted;
      HeldLive(heap, den, held + Own(r), r);
      if r.Far? {
        assert held + Own(r) == held;
      } else if heap[r.p].use > 1 {
        UseIs(heap, den, held + Own(r), r.p);
        Recount(heap, den, held + Own(r), held, r.p, heap[r.p].use - 1);
        SameRefs(heap, r.p, heap[r.p].use - 1);
        heap := heap[r.p := heap[r.p].(use := heap[r.p].use - 1)];
      } else {
        UseIs(heap, den, held + Own(r), r.p);
        Dropped(heap, den, held, r.p);
        FewerRefs(heap, r.p);
        var b := heap[r.p].body;
        if b.Pair? {
          PartLive(heap, den, held + Own(r), r.p);
          heap := heap[r.p := Free];
          assert held + Owned(b) == held + Own(b.tel) + Own(b.hed);
          Lose(b.hed, held + Own(b.tel));
          Lose(b.tel, held);
        } else {
          heap := heap[r.p := Free];
          assert held + Owned(b) == held;
        }
      }
    }

    /** A new cell of two references, which it takes over. */
    method Cons(h: Ref, t: Ref, ghost held: multiset<nat>) returns (r: Ref)
      requires Valid(held + Own(h) + Own(t))
      modifies this
      ensures Valid(held + Own(r)) && r == Ptr(|old(heap)|) && heap == old(heap) + [Obj(1, Pair(h, t))]
      ensures den == old(den) + [Cell(D(old(den), h), D(old(den), t))]
      ensures forall p: nat :: In(heap, p) == In(old(heap), p) + Hit(h, p) + Hit(t, p)
    {
      hide In, Good, Counted;
      Added(heap, den, held, h, t);
      SizesMatch(heap, den, held + Own(h) + Own(t));
      r := Ptr(|heap|);
      den := den + [Cell(D(den, h), D(den, t))];
      heap := heap + [Obj(1, Pair(h, t))];
      forall p: nat ensures In(heap, p) == In(old(heap), p) + Hit(h, p) + Hit(t, p) { InAppend(old(heap), Obj(1, Pair(h, t)), p); }
    }

    /** A new atom. */
    method NewAtom(v: nat, ghost held: multiset<nat>) returns (r: Ref)
      requires Valid(held)
      modifies this
      ensures Valid(held + Own(r)) && r == Ptr(|old(heap)|) && heap == old(heap) + [Obj(1, Words(v))] && den == old(den) + [Atom(v)]
    {
      hide In, Good, Counted;
      AddedAtom(heap, den, held, v);
      SizesMatch(heap, den, held);
      r := Ptr(|heap|);
      den := den + [Atom(v)];
      heap := heap + [Obj(1, Words(v))];
    }
  }

  lemma SameRefs(heap: seq<Slot>, i: nat, use: nat)
    requires i < |heap| && heap[i].Obj?
    ensures forall p: nat :: In(heap[i := heap[i].(use := use)], p) == In(heap, p)
  {
    hide In;
    forall p: nat ensures In(heap[i := heap[i].(use := use)], p) == In(heap, p) { InUpdate(heap, i, heap[i].(use := use), p); }
  }

  lemma FewerRefs(heap: seq<Slot>, i: nat)
    requires i < |heap|
    ensures forall p: nat :: In(heap[i := Free], p) <= In(heap, p)
  {
    hide In;
    forall p: nat ensures In(heap[i := Free], p) <= In(heap, p) { InUpdate(heap, i, Free, p); }
  }

  lemma UseIs(heap: seq<Slot>, den: seq<Noun>, held: multiset<nat>, p: nat)
    requires Good(heap, den, held) && p < |heap| && heap[p].Obj?
    ensures 0 < heap[p].use == In(heap, p) + held[p] && |den| == |heap|
  {
    assert Counted(heap, held, p);
  }

  lemma SizesMatch(heap: seq<Slot>, den: seq<Noun>, held: multiset<nat>)
    requires Good(heap, den, held)
    ensures |heap| == |den|
  {
  }
}
