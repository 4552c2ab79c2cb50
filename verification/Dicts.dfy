/** Dictionaries of noun references in fixed-size buckets, reallocated with fibonacci growth
    once a bucket is full (pkg/urbit/ur/hashcons.c, `ur_dict*_grow`, `_get`, `_put`). */
module Dicts {
  import opened Nouns

  /** Entries a bucket can hold. */
  const PAIL_MAX: nat := 10

  /** Mugs are 31 bits. */
  const MUGS: nat := 0x8000_0000

  datatype Entry<V> = Entry(ref: nat, mug: nat, val: V)

  type Pail<V> = seq<Entry<V>>

  /** The buckets and the two sizes that drive their growth. */
  datatype Table<V> = Table(prev: nat, size: nat, pails: seq<Pail<V>>)

  /** The bucket of a mug. */
  function Idx(mug: nat, size: nat): (i: nat)
    requires size > 0
    ensures i < size && (mug < size ==> i == mug)
  {
    mug % size
  }

  /** No reference twice in a bucket. */
  predicate Apart<V>(p: Pail<V>) {
    forall i, j | 0 <= i < j < |p| :: p[i].ref != p[j].ref
  }

  /** The table represents the finite map `m`. */
  ghost predicate Represents<V>(t: Table<V>, m: map<nat, Entry<V>>) {
    && 0 < t.prev && 0 < t.size == |t.pails|
    && (forall i | 0 <= i < t.size :: |t.pails[i]| <= PAIL_MAX && Apart(t.pails[i]))
    && (forall i, j | 0 <= i < t.size && 0 <= j < |t.pails[i]| :: Placed(t, m, i, t.pails[i][j]))
    && (forall k | k in m :: m[k].ref == k && m[k].mug < MUGS && m[k] in t.pails[Idx(m[k].mug, t.size)])
  }

  /** An entry found in bucket `i` is the map's, in the bucket of its mug. */
  ghost predicate Placed<V>(t: Table<V>, m: map<nat, Entry<V>>, i: nat, e: Entry<V>)
    requires t.size > 0
  {
    e.ref in m && m[e.ref] == e && Idx(e.mug, t.size) == i
  }

  /** Where `ref` is in a bucket. */
  function Where<V>(p: Pail<V>, ref: nat): (i: nat)
    ensures i <= |p| && (i < |p| ==> p[i].ref == ref) && forall j :: 0 <= j < i ==> p[j].ref != ref
  {
    if p == [] || p[0].ref == ref then 0 else 1 + Where(p[1..], ref)
  }

  function EmptyTable<V>(prev: nat, size: nat): Table<V> { Table(prev, size, seq(size, i => [])) }

  lemma EmptyTableOk<V>(prev: nat, size: nat)
    requires prev > 0 && size > 0
    ensures Represents<V>(EmptyTable(prev, size), map[])
  {
  }

  /** The entries of a bucket. */
  function Entries<V(==)>(p: Pail<V>): set<Entry<V>> { set e | e in p }

  lemma {:induction false} EntriesBound<V>(p: Pail<V>)
    ensures |Entries(p)| <= |p|
    ensures Apart(p) ==> |Entries(p)| == |p|
  {
    if p != [] {
      var q := p[..|p| - 1];
      var e := p[|p| - 1];
      assert p == q + [e];
      EntriesBound(q);
      assert Entries(p) == Entries(q) + {e};
      if Apart(p) {
        assert forall i :: 0 <= i < |q| ==> q[i] == p[i] && p[i].ref != e.ref;
      }
    }
  }

  /** Once there is a bucket for every mug, entries that collide in a new bucket collided in the
      old table too, so there are at most a bucket's worth of them. */
  lemma NoOverflow<V>(t: Table<V>, m: map<nat, Entry<V>>, p: Pail<V>, e: Entry<V>)
    requires Represents(t, m) && e.ref in m && m[e.ref] == e
    requires Apart(p) && forall j | 0 <= j < |p| :: p[j].ref in m && m[p[j].ref] == p[j] && p[j].mug == e.mug
    requires forall j | 0 <= j < |p| :: p[j].ref != e.ref
    ensures |p| < PAIL_MAX
  {
    var b := t.pails[Idx(e.mug, t.size)];
    EntriesBound(p);
    EntriesBound(b);
    forall x | x in Entries(p) + {e} ensures x in Entries(b) {
      if x != e {
        var j :| 0 <= j < |p| && p[j] == x;
        assert m[x.ref] == x && x.mug == e.mug;
      }
    }
    SubsetSize(Entries(p) + {e}, Entries(b));
  }

  lemma SubsetSize<T>(a: set<T>, b: set<T>)
    requires a <= b
    ensures |a| <= |b|
  {
    assert |b| == |a| + |b - a| by { assert b == a + (b - a); }
  }

  /** Put an entry whose reference is new into its bucket, which has room. */
  lemma PutNew<V>(t: Table<V>, m: map<nat, Entry<V>>, e: Entry<V>)
    requires Represents(t, m) && e.ref !in m && e.mug < MUGS && |t.pails[Idx(e.mug, t.size)]| < PAIL_MAX
    ensures
      var i := Idx(e.mug, t.size);
      Represents(t.(pails := t.pails[i := t.pails[i] + [e]]), m[e.ref := e])
  {
    var i := Idx(e.mug, t.size);
    var t' := t.(pails := t.pails[i := t.pails[i] + [e]]);
    var m' := m[e.ref := e];
    forall a, j | 0 <= a < t'.size && 0 <= j < |t'.pails[a]| ensures Placed(t', m', a, t'.pails[a][j]) {
      if a != i || j < |t.pails[i]| { assert Placed(t, m, a, t.pails[a][j]); }
    }
    assert Apart(t'.pails[i]) by {
      forall j | 0 <= j < |t.pails[i]| ensures t.pails[i][j].ref != e.ref { assert Placed(t, m, i, t.pails[i][j]); }
    }
    forall k | k in m' ensures m'[k].ref == k && m'[k] in t'.pails[m'[k].mug % t'.size] {
      if k == e.ref { assert t'.pails[i][|t.pails[i]|] == e; }
    }
  }

  /** Replace the value of an entry. */
  lemma PutOld<V>(t: Table<V>, m: map<nat, Entry<V>>, e: Entry<V>, i: nat, j: nat)
    requires Represents(t, m) && i < t.size && j < |t.pails[i]| && t.pails[i][j].ref == e.ref && t.pails[i][j].mug == e.mug
    ensures Represents(t.(pails := t.pails[i := t.pails[i][j := e]]), m[e.ref := e])
  {
    var t' := t.(pails := t.pails[i := t.pails[i][j := e]]);
    var m' := m[e.ref := e];
    assert Placed(t, m, i, t.pails[i][j]);
    forall a, b | 0 <= a < t'.size && 0 <= b < |t'.pails[a]| ensures Placed(t', m', a, t'.pails[a][b]) {
      assert Placed(t, m, a, t.pails[a][b]);
    }
    forall k | k in m' ensures m'[k].ref == k && m'[k] in t'.pails[m'[k].mug % t'.size] {
      if k == e.ref {
        assert t'.pails[i][j] == e;
      } else {
        var p := t.pails[Idx(m[k].mug, t.size)];
        var b :| 0 <= b < |p| && p[b] == m[k];
        assert t'.pails[Idx(m[k].mug, t.size)][b] == m[k];
      }
    }
  }

  /** The entries in the buckets before `i`, and the first `j` of bucket `i`. */
  ghost function Part<V>(t: Table<V>, m: map<nat, Entry<V>>, i: nat, j: nat): map<nat, Entry<V>>
    requires t.size > 0 && i <= t.size == |t.pails|
  {
    map k | k in m && (Idx(m[k].mug, t.size) < i ||
                       (i < t.size && Idx(m[k].mug, t.size) == i && Where(t.pails[i], k) < j)) :: m[k]
  }

  lemma PartOf<V>(t: Table<V>, m: map<nat, Entry<V>>, i: nat, j: nat)
    requires t.size > 0 && i <= t.size == |t.pails|
    ensures forall k | k in Part(t, m, i, j) :: k in m && m[k] == Part(t, m, i, j)[k]
  {
  }

  lemma PartStep<V>(t: Table<V>, m: map<nat, Entry<V>>, i: nat, j: nat)
    requires Represents(t, m) && i < t.size && j < |t.pails[i]|
    ensures
      var e := t.pails[i][j];
      && e.ref in m && m[e.ref] == e && Idx(e.mug, t.size) == i && e.ref !in Part(t, m, i, j)
      && Part(t, m, i, j + 1) == Part(t, m, i, j)[e.ref := e]
  {
    hide Idx, Where;
    var p := t.pails[i];
    assert Placed(t, m, i, p[j]);
    FirstAt(p, j);
    forall k | k in m && Idx(m[k].mug, t.size) == i && k != p[j].ref ensures Where(p, k) != j {
      WhereIs(p, k);
    }
  }

  lemma WhereIs<V>(p: Pail<V>, k: nat)
    ensures Where(p, k) < |p| ==> p[Where(p, k)].ref == k
  {
  }

  lemma PartNext<V>(t: Table<V>, m: map<nat, Entry<V>>, i: nat)
    requires Represents(t, m) && i < t.size
    ensures Part(t, m, i, |t.pails[i]|) == Part(t, m, i + 1, 0)
  {
    hide Idx, Where;
    forall k | k in m && Idx(m[k].mug, t.size) == i ensures Where(t.pails[i], k) < |t.pails[i]| {
      var p := t.pails[i];
      var b :| 0 <= b < |p| && p[b] == m[k];
      FirstAt(p, b);
    }
  }

  lemma PartEnds<V>(t: Table<V>, m: map<nat, Entry<V>>)
    requires Represents(t, m)
    ensures Part(t, m, 0, 0) == map[] && Part(t, m, t.size, 0) == m
  {
  }

  /** Copy every entry into `next` buckets; refused when one of them would overflow. */
  method Rehash<V>(t: Table<V>, next: nat, ghost m: map<nat, Entry<V>>) returns (ok: bool, t': Table<V>)
    requires Represents(t, m) && next > t.size
    ensures ok ==> Represents(t', m) && t'.prev == t.size && t'.size == next
    ensures !ok ==> next < MUGS
  {
    hide Idx, Where, Represents, Part;
    assert 0 < t.size == |t.pails| by { SizeOk(t, m); }
    t' := EmptyTable(t.size, next);
    EmptyTableOk<V>(t.size, next);
    PartEnds(t, m);
    for i := 0 to t.size
      invariant Represents(t', Part(t, m, i, 0)) && t'.prev == t.size && t'.size == next
    {
      var p := t.pails[i];
      for j := 0 to |p|
        invariant Represents(t', Part(t, m, i, j)) && t'.prev == t.size && t'.size == next
      {
        var e := p[j];
        PartStep(t, m, i, j);
        SizeOk(t', Part(t, m, i, j));
        MugOk(t, m, e);
        var idx := Idx(e.mug, next);
        if |t'.pails[idx]| == PAIL_MAX {
          ok := false;
          PartOf(t, m, i, j);
          if next >= MUGS { Overflowed(t, m, t', Part(t, m, i, j), e); }
          return;
        }
        PailOk(t', Part(t, m, i, j), idx);
        PutNew(t', Part(t, m, i, j), e);
        t' := t'.(pails := t'.pails[idx := t'.pails[idx] + [e]]);
      }
      PartNext(t, m, i);
    }
    ok := true;
  }

  lemma SizeOk<V>(t: Table<V>, m: map<nat, Entry<V>>)
    requires Represents(t, m)
    ensures 0 < t.prev && 0 < t.size == |t.pails|
  {
  }

  lemma PailOk<V>(t: Table<V>, m: map<nat, Entry<V>>, i: nat)
    requires Represents(t, m) && i < t.size
    ensures i < |t.pails| && |t.pails[i]| <= PAIL_MAX
  {
  }

  lemma MugOk<V>(t: Table<V>, m: map<nat, Entry<V>>, e: Entry<V>)
    requires Represents(t, m) && e.ref in m && m[e.ref] == e
    ensures e.mug < MUGS
  {
  }

  lemma FirstAt<V>(p: Pail<V>, j: nat)
    requires Apart(p) && j < |p|
    ensures Where(p, p[j].ref) == j
  {
  }

  lemma Overflowed<V>(t: Table<V>, m: map<nat, Entry<V>>, t': Table<V>, moved: map<nat, Entry<V>>, e: Entry<V>)
    requires Represents(t, m) && Represents(t', moved) && t'.size >= MUGS && t'.size > 0
    requires forall k | k in moved :: k in m && m[k] == moved[k]
    requires e.ref in m && m[e.ref] == e && e.ref !in moved
    ensures |t'.pails[Idx(e.mug, t'.size)]| < PAIL_MAX
  {
    hide Idx;
    var i := Idx(e.mug, t'.size);
    var p := t'.pails[i];
    MugOk(t, m, e);
    forall j | 0 <= j < |p| ensures p[j].ref in m && m[p[j].ref] == p[j] && p[j].mug == e.mug && p[j].ref != e.ref {
      assert Placed(t', moved, i, p[j]);
      MugOk(t', moved, p[j]);
    }
    NoOverflow(t, m, p, e);
  }

  /** Grow until every entry fits: always succeeds. */
  method Grow<V>(t: Table<V>, ghost m: map<nat, Entry<V>>) returns (t': Table<V>)
    requires Represents(t, m)
    ensures Represents(t', m) && t'.size > t.size
  {
    var prev, size := t.prev, t.size;
    while true
      invariant prev > 0 && size >= t.size
      decreases MUGS - prev - size
    {
      var ok;
      ok, t' := Rehash(t, prev + size, m);
      if ok {
        t' := t'.(prev := size);
        return;
      }
      prev, size := size, prev + size;
    }
  }

  /** A reference in the map is found in the bucket of its mug. */
  lemma Present<V>(t: Table<V>, m: map<nat, Entry<V>>, ref: nat)
    requires Represents(t, m) && ref in m
    ensures var p := t.pails[Idx(m[ref].mug, t.size)]; Where(p, ref) < |p|
  {
    hide Idx;
    var p := t.pails[Idx(m[ref].mug, t.size)];
    var b :| 0 <= b < |p| && p[b] == m[ref];
    FirstAt(p, b);
  }

  /** No entry outside its bucket: a reference absent from the bucket of its mug is absent. */
  lemma Absent<V>(t: Table<V>, m: map<nat, Entry<V>>, ref: nat, mug: nat)
    requires Represents(t, m) && (ref in m ==> m[ref].mug == mug)
    requires var p := t.pails[Idx(mug, t.size)]; Where(p, ref) == |p|
    ensures ref !in m
  {
    hide Idx, Where;
    if ref in m { Present(t, m, ref); }
  }

  /** A table holds no more references of one mug than a bucket. */
  lemma Bounded<V>(t: Table<V>, m: map<nat, Entry<V>>, rs: seq<nat>, mug: nat)
    requires Represents(t, m) && (forall i, j | 0 <= i < j < |rs| :: rs[i] != rs[j])
    requires forall i | 0 <= i < |rs| :: rs[i] in m && m[rs[i]].mug == mug
    ensures |rs| <= PAIL_MAX
  {
    hide Idx;
    var p: Pail<V> := seq(|rs|, i requires 0 <= i < |rs| => m[rs[i]]);
    var b := t.pails[Idx(mug, t.size)];
    EntriesBound(p);
    EntriesBound(b);
    forall e | e in Entries(p) ensures e in Entries(b) {}
    SubsetSize(Entries(p), Entries(b));
  }

  /** More entries share one mug than a bucket holds: no size of table can hold them all. */
  ghost predicate Crowded<V(!new)>(m: map<nat, Entry<V>>, mug: nat) {
    exists p: Pail<V> :: Crowd(m, mug, p)
  }

  ghost predicate Crowd<V>(m: map<nat, Entry<V>>, mug: nat, p: Pail<V>) {
    |p| == PAIL_MAX && Apart(p) && forall i | 0 <= i < |p| :: Stored(m, p[i]) && p[i].mug == mug
  }

  ghost predicate Stored<V>(m: map<nat, Entry<V>>, e: Entry<V>) { e.ref in m && m[e.ref] == e }

  lemma CrowdTwo<V(!new)>(m: map<nat, Entry<V>>, mug: nat)
    requires Crowded(m, mug)
    ensures exists r, s :: r in m && s in m && r != s
  {
    var p: Pail<V> :| Crowd(m, mug, p);
    assert Stored(m, p[0]) && Stored(m, p[1]);
  }

  /** A full bucket in a table with a bucket for every mug. */
  lemma FullIsCrowded<V(!new)>(t: Table<V>, m: map<nat, Entry<V>>, mug: nat)
    requires Represents(t, m) && t.size >= MUGS && mug < MUGS && |t.pails[Idx(mug, t.size)]| == PAIL_MAX
    ensures Crowded(m, mug)
  {
    hide Idx;
    var p := t.pails[Idx(mug, t.size)];
    forall i | 0 <= i < |p| ensures Stored(m, p[i]) && p[i].mug == mug {
      assert Placed(t, m, Idx(mug, t.size), p[i]);
      MugOk(t, m, p[i]);
    }
    assert Crowd(m, mug, p);
  }

  /** A dictionary from references to values. A reference always comes with the same mug. */
  class Dict<V(==, !new)> {
    var table: Table<V>
    ghost var m: map<nat, Entry<V>>

    ghost predicate Valid()
      reads this
    {
      Represents(table, m)
    }

    constructor (prev: nat, size: nat)
      requires prev > 0 && size > 0
      ensures Valid() && m == map[]
    {
      table := EmptyTable(prev, size);
      m := map[];
      new;
      EmptyTableOk<V>(prev, size);
    }

    /** The value stored for a reference, if any. */
    method Get(ref: nat, mug: nat) returns (out: Option<V>)
      requires Valid() && (ref in m ==> m[ref].mug == mug)
      ensures out == if ref in m then Some(m[ref].val) else None
    {
      var p := table.pails[Idx(mug, table.size)];
      var i := 0;
      while i < |p|
        invariant i <= |p| && forall j | 0 <= j < i :: p[j].ref != ref
      {
        if p[i].ref == ref {
          assert Placed(table, m, Idx(mug, table.size), p[i]);
          return Some(p[i].val);
        }
        i := i + 1;
      }
      WhereEnd(p, ref);
      Absent(table, m, ref, mug);
      return None;
    }

    /** Store a value. It fails only when the bucket's worth of other references already has the
        same mug: the original then grows until memory runs out. */
    method Put(ref: nat, mug: nat, val: V) returns (ok: bool)
      requires Valid() && mug < MUGS && (ref in m ==> m[ref].mug == mug)
      modifies this
      ensures Valid()
      ensures ok ==> m == old(m)[ref := Entry(ref, mug, val)]
      ensures !ok ==> m == old(m) && ref !in m && Crowded(m, mug)
    {
      var e := Entry(ref, mug, val);
      while true
        invariant Valid() && m == old(m)
        decreases MUGS - table.size
      {
        var idx := Idx(mug, table.size);
        var p := table.pails[idx];
        var i := 0;
        while i < |p| && p[i].ref != ref
          invariant i <= |p| && forall j | 0 <= j < i :: p[j].ref != ref
        {
          i := i + 1;
        }
        if i < |p| {
          assert Placed(table, m, idx, p[i]);
          PutOld(table, m, e, idx, i);
          table := table.(pails := table.pails[idx := p[i := e]]);
          m := m[ref := e];
          return true;
        }
        WhereEnd(p, ref);
        Absent(table, m, ref, mug);
        if |p| < PAIL_MAX {
          PutNew(table, m, e);
          table := table.(pails := table.pails[idx := p + [e]]);
          m := m[ref := e];
          return true;
        }
        if table.size >= MUGS {
          FullIsCrowded(table, m, mug);
          return false;
        }
        table := Grow(table, m);
      }
    }

    /** Forget every entry, keeping the buckets. */
    method Wipe()
      requires Valid()
      modifies this
      ensures Valid() && m == map[]
    {
      table := EmptyTable(table.prev, table.size);
      m := map[];
      EmptyTableOk<V>(table.prev, table.size);
    }
  }

  lemma WhereEnd<V>(p: Pail<V>, ref: nat)
    requires forall j | 0 <= j < |p| :: p[j].ref != ref
    ensures Where(p, ref) == |p|
  {
  }
}
