/** `ur_cue`: reading a noun into the arena (pkg/urbit/ur/serial.c:174-324). */
module CueRoot {
  import opened Nouns
  import opened Bits
  import opened BitReader
  import opened Dicts
  import opened HashCons
  import opened JamSpec
  import opened CueStack
  import opened Serial
  import opened Coins
  import opened Room

  const CUE_HEAD: nat := 0xffff_ffff_ffff_ffff

  /** Byte lengths past this could not be addressed by bit in 62 bits. */
  const MAX_BYTES: nat := 0x7ff_ffff_ffff_ffff

  /** A stack frame: `CUE_HEAD` while the head is read, then the head. */
  datatype Frame = Frame(ref: nat, bits: nat)

  ghost predicate FrameOk(a: Arena, bits: nat, f: Frame, o: Open)
    requires Sound(a)
  {
    f.bits == o.bits && f.bits < bits &&
    (if o.OpenHead? then f.ref == CUE_HEAD else Live(a, f.ref) && Denote(a, f.ref) == o.hed)
  }

  ghost predicate Frames(a: Arena, bits: nat, s: seq<Frame>, fs: seq<Open>)
    requires Sound(a)
  {
    |s| == |fs| && forall i | 0 <= i < |s| :: FrameOk(a, bits, s[i], fs[i])
  }

  /** The dictionary maps bit positions to references, as `done` maps them to nouns. */
  ghost predicate Completed(h: Hash, a: Arena, bits: nat, m: map<nat, Entry<nat>>, done: map<nat, Noun>)
    requires Sound(a)
  {
    m.Keys == done.Keys && forall k | k in m :: CompletedAt(h, a, bits, m[k], k, done[k])
  }

  ghost predicate CompletedAt(h: Hash, a: Arena, bits: nat, e: Entry<nat>, k: nat, n: Noun)
    requires Sound(a)
  {
    k < bits && Live(a, e.val) && Denote(a, e.val) == n && e.mug == MugBytes(h, BytesOf(k))
  }

  lemma Kept(h: Hash, a: Arena, b: Arena, bits: nat, m: map<nat, Entry<nat>>, done: map<nat, Noun>,
          s: seq<Frame>, fs: seq<Open>)
    requires Sound(a) && Sound(b) && Grows(a, b)
    ensures Completed(h, a, bits, m, done) ==> Completed(h, b, bits, m, done)
    ensures Frames(a, bits, s, fs) ==> Frames(b, bits, s, fs)
  {
    hide Sound, Denote, Ok, Grows, MugBytes, BytesOf;
    if Completed(h, a, bits, m, done) {
      forall k | k in m ensures CompletedAt(h, b, bits, m[k], k, done[k]) {
        assert CompletedAt(h, a, bits, m[k], k, done[k]);
        DenoteStays(a, b, m[k].val);
      }
    }
    if Frames(a, bits, s, fs) {
      forall i | 0 <= i < |s| ensures FrameOk(b, bits, s[i], fs[i]) {
        assert FrameOk(a, bits, s[i], fs[i]);
        if fs[i].OpenTail? { DenoteStays(a, b, s[i].ref); }
      }
    }
  }

  /** Why reading can run out of memory: eleven of the bit positions to be stored have one mug, or the
      arena cannot take another atom or cell: one of this noun's, if the arena was canonical and the
      stream is tight. */
  ghost predicate Crammed(h: Hash, a0: Arena, a: Arena, c: Cued)
    requires Sound(a)
  {
    c.Cued? &&
    (Clash(h, c.done.Keys) || (Spent(a) && (Canonical(a0) && c.tight ==> Canonical(a) && Stopped(h, a, Subnouns(c.noun)))))
  }

  ghost predicate Clash(h: Hash, keys: set<nat>) { exists ps: seq<nat> :: Clashing(h, keys, ps) }

  ghost predicate Clashing(h: Hash, keys: set<nat>, ps: seq<nat>) {
    && |ps| == PAIL_MAX + 1 && (forall i, j | 0 <= i < j < |ps| :: ps[i] != ps[j])
    && (forall i | 0 <= i < |ps| :: ps[i] in keys && MugBytes(h, BytesOf(ps[i])) == MugBytes(h, BytesOf(ps[0])))
  }

  lemma ClashMore(h: Hash, keys: set<nat>, more: set<nat>)
    requires Clash(h, keys) && keys <= more
    ensures Clash(h, more)
  {
    hide MugBytes, BytesOf;
    var ps: seq<nat> :| Clashing(h, keys, ps);
    assert Clashing(h, more, ps);
  }

  lemma CrowdedPositions(h: Hash, a: Arena, bits: nat, m: map<nat, Entry<nat>>, done: map<nat, Noun>, pos: nat)
    requires Sound(a) && Completed(h, a, bits, m, done) && pos !in m && Crowded(m, MugBytes(h, BytesOf(pos)))
    ensures Clash(h, done.Keys + {pos})
  {
    hide Sound, Live, MugBytes, BytesOf;
    var p: Pail<nat> :| Crowd(m, MugBytes(h, BytesOf(pos)), p);
    var ps: seq<nat> := seq(PAIL_MAX, i requires 0 <= i < PAIL_MAX => p[i].ref) + [pos];
    var keys := done.Keys + {pos};
    forall i | 0 <= i < |ps| ensures ps[i] in keys && MugBytes(h, BytesOf(ps[i])) == MugBytes(h, BytesOf(pos)) && (i < PAIL_MAX ==> ps[i] in m) {
      if i < PAIL_MAX {
        assert Stored(m, p[i]);
        assert CompletedAt(h, a, bits, m[ps[i]], ps[i], done[ps[i]]);
      }
    }
    assert Clashing(h, keys, ps);
  }

  /** When every position is in the dictionary, no eleven of them have one mug. */
  lemma NoClash(h: Hash, a: Arena, bits: nat, t: Table<nat>, m: map<nat, Entry<nat>>, done: map<nat, Noun>)
    requires Sound(a) && Represents(t, m) && Completed(h, a, bits, m, done)
    ensures !Clash(h, done.Keys)
  {
    hide Sound, Live, MugBytes, BytesOf, Represents;
    if ps: seq<nat> :| Clashing(h, done.Keys, ps) {
      forall i | 0 <= i < |ps| ensures ps[i] in m && m[ps[i]].mug == MugBytes(h, BytesOf(ps[0])) {
        assert CompletedAt(h, a, bits, m[ps[i]], ps[i], done[ps[i]]);
      }
      Bounded(t, m, ps, MugBytes(h, BytesOf(ps[0])));
    }
  }

  /** Store a completed noun. */
  method Complete(root: Root, dict: Dict<nat>, pos: nat, ref: nat, ghost b: seq<bool>, ghost done: map<nat, Noun>)
    returns (ok: bool)
    requires root.Valid() && dict.Valid() && Completed(root.h, root.a, |b|, dict.m, done) && Live(root.a, ref) && pos < |b|
    modifies dict
    ensures dict.Valid()
    ensures !ok ==> Clash(root.h, done.Keys + {pos})
    ensures ok ==> Completed(root.h, root.a, |b|, dict.m, done[pos := Denote(root.a, ref)])
  {
    hide Represents, MugBytes, BytesOf, Denote, Crowded, Clash, Ok, Healthy, Sound;
    HealthySound(root.h, root.a);
    ghost var m := dict.m;
    if pos in m { assert CompletedAt(root.h, root.a, |b|, m[pos], pos, done[pos]); }
    ok := dict.Put(pos, MugBytes(root.h, BytesOf(pos)), ref);
    if !ok {
      CrowdedPositions(root.h, root.a, |b|, m, done, pos);
    } else {
      ghost var done' := done[pos := Denote(root.a, ref)];
      forall k | k in dict.m ensures CompletedAt(root.h, root.a, |b|, dict.m[k], k, done'[k]) {
        if k != pos { assert CompletedAt(root.h, root.a, |b|, m[k], k, done[k]); }
      }
    }
  }

  /** The reader stands at its bit count in the stream. */
  ghost predicate At(bsr: Bsr, b: seq<bool>)
    reads bsr
  {
    bsr.Valid() && bsr.bits <= |b| && bsr.Rest() == b[bsr.bits..]
  }

  /** Read the payload of an atom whose declared length is `len`, into the arena. */
  method TakeAtom(root: Root, bsr: Bsr, len: nat, ghost b: seq<bool>) returns (ok: bool, out: nat)
    requires root.Valid() && At(bsr, b) && bsr.bits + len <= |b|
    modifies root, bsr
    ensures root.Valid() && At(bsr, b) && bsr.bits == old(bsr.bits) + len && Grows(old(root.a), root.a)
    ensures
      var v := Value(b[old(bsr.bits)..old(bsr.bits) + len]);
      && (ok ==> Live(root.a, out) && Denote(root.a, out) == Atom(v))
      && (!ok ==> Sound(root.a) && Spent(root.a) && root.a == old(root.a))
      && (!ok && (len <= 62 || v >= Pow2(62)) ==> Refused(root.h, root.a, Atom(v))) && Adds(old(root.a), root.a, {Atom(v)})
      && (ok ==> (Canonical(root.a) <==> Canonical(old(root.a)) && (len <= 62 || v >= Pow2(62))))
      && (Sound(old(root.a)) && Knows(old(root.a), Atom(v)) && (len <= 62 || v >= Pow2(62)) ==> ok && root.a == old(root.a))
  {
    hide Represents, Value, Stream, Low, Met, Pow2, Healthy, Spent, Knows, Canonical, Denote, Adds, Grows, Refused, Crowded;
    SixtyTwoBits();
    HealthySound(root.h, root.a);
    ghost var was := root.a;
    assert bsr.Rest()[..len] == b[bsr.bits..bsr.bits + len];
    assert bsr.Rest()[len..] == b[bsr.bits + len..];
    ghost var v := Value(bsr.Rest()[..len]);
    if len <= 62 {
      SmallAtom(bsr.Rest()[..len]);
      DirectIs(root.a, v);
      ok := true;
      out := bsr.Read64(len);
      AddsNone(was);
      AddsMore(was, was, {}, {Atom(v)});
    } else {
      var byt := bsr.ReadBytes(len);
      PadValue(b[old(bsr.bits)..old(bsr.bits) + len], 8 * |byt| - len);
      while byt != [] && byt[|byt| - 1] == 0
        invariant AreBytes(byt) && Value(Stream(byt)) == v && At(bsr, b) && bsr.bits == old(bsr.bits) + len
        invariant root.Valid() && root.a == old(root.a)
      {
        TopZero(byt);
        byt := byt[..|byt| - 1];
      }
      if Knows(was, Atom(v)) && v >= TAG { KnowsAtom(was, byt); }
      ok, out := root.CoinBytesUnsafe(byt);
      HealthySound(root.h, root.a);
      AddsAtom(was, root.a, byt);
      if ok {
        StoredIs(root.a, out);
        CanonicalCoin(was, root.a, byt);
      } else {
        SpentAtoms(root.a, MugBytes(root.h, byt));
        if v >= TAG { RefusedAtom(root.h, root.a, byt); }
      }
    }
  }

  lemma SmallAtom(b: seq<bool>)
    requires |b| <= 62
    ensures Value(b) < TAG && RefTag(Value(b)) == 0
  {
    ValueBound(b);
    SixtyTwoBits();
    PowOrder(|b|, 62);
  }

  lemma PadValue(b: seq<bool>, k: nat)
    ensures Value(b + Zeros(k)) == Value(b)
  {
    hide Pow2;
    ValueJoin(b, Zeros(k));
    ZeroValue(k);
  }

  lemma ZeroValue(k: nat)
    ensures Value(Zeros(k)) == 0
  {
  }

  // ---- tokens ----

  /** What the next token is, part by part as the reader takes it. */
  lemma NextTag(r: seq<bool>)
    ensures r == [] || (r[0] && |r| == 1) ==> Next(r) == Bad
    ensures |r| > 1 && r[0] && !r[1] ==> Next(r) == CellToken
    ensures
      r != [] && !r[0] ==>
        Next(r) == match ReadRub(r[1..])
                   case NoRub => Bad
                   case Rub(len, used) =>
                     if 1 + used + len > |r| then Bad else AtomToken(Value(r[1 + used..1 + used + len]), len, 1 + used + len)
    ensures
      |r| > 1 && r[0] && r[1] ==>
        Next(r) == match ReadRub(r[2..])
                   case NoRub => Bad
                   case Rub(len, used) =>
                     if len > 62 || 2 + used + len > |r| then Bad else BackToken(Value(r[2 + used..2 + used + len]), 2 + used + len)
  {
    hide ReadRub, Value;
  }

  lemma After(b: seq<bool>, i: nat, j: nat)
    requires i + j <= |b|
    ensures b[i..][j..] == b[i + j..]
  {
  }

  lemma Within(b: seq<bool>, i: nat, j: nat, k: nat)
    requires i + j <= i + k <= |b|
    ensures b[i..][j..k] == b[i + j..i + k]
  {
  }

  lemma RubFits(r: seq<bool>)
    ensures ReadRub(r).Rub? ==> ReadRub(r).used <= |r|
  {
  }

  /** Read the rest of a back-reference. */
  method ReadBack(root: Root, bsr: Bsr, dict: Dict<nat>, ghost b: seq<bool>, ghost cur: nat, ghost done: map<nat, Noun>)
    returns (res: Result, out: nat, ghost c: Cued)
    requires root.Valid() && dict.Valid() && Completed(root.h, root.a, |b|, dict.m, done)
    requires At(bsr, b) && bsr.bits == cur + 2 && b[cur] && b[cur + 1]
    modifies bsr
    ensures c == Cue(b, cur, done) && res != Full
    ensures res != Good ==> c == Failed
    ensures
      res == Good ==> At(bsr, b) && Live(root.a, out) && c == Cued(Denote(root.a, out), bsr.bits, done, true) && bsr.bits > cur
  {
    hide AreBytes, Represents, Healthy, Crammed, Crowded, Next, Cue, ReadRub, Value, Stream, Sound, Denote, Ok, MugBytes, BytesOf, Met, Completed,
      Live, Adds, Canonical, Grows, Pow2, CompletedAt;
    ghost var r := b[cur..];
    NextTag(r);
    CueToken(b, cur, done);
    After(b, cur, 2);
    c, out := Cue(b, cur, done), 0;
    var len;
    res, len := bsr.ReadRubLen();
    if res != Good { return; }
    RubFits(r[2..]);
    After(b, cur + 2, ReadRub(r[2..]).used);
    if len > 62 { return Meme, 0, c; }
    if len > |bsr.Rest()| { return Past, 0, c; }
    ghost var used := 2 + ReadRub(r[2..]).used;
    Within(b, cur, used, used + len);
    assert bsr.Rest()[..len] == b[cur + used..cur + used + len];
    After(b, cur + used, len);
    var bak := bsr.Read64(len);
    HealthySound(root.h, root.a);
    KnownPosition(root.h, root.a, |b|, dict.m, done, bak);
    var val := dict.Get(bak, MugBytes(root.h, BytesOf(bak)));
    match val
    case None => res := BitReader.Back;
    case Some(v) => out := v;
  }

  lemma KnownPosition(h: Hash, a: Arena, bits: nat, m: map<nat, Entry<nat>>, done: map<nat, Noun>, k: nat)
    requires Sound(a) && Completed(h, a, bits, m, done)
    ensures k in m <==> k in done
    ensures k in m ==> Live(a, m[k].val) && Denote(a, m[k].val) == done[k] && m[k].mug == MugBytes(h, BytesOf(k))
  {
    hide Sound, Live, Denote, MugBytes, BytesOf;
    if k in m { assert CompletedAt(h, a, bits, m[k], k, done[k]); }
  }

  /** A noun read from a stream that wastes nothing, and which the arena already knows. */
  ghost predicate Familiar(a: Arena, c: Cued) { Sound(a) && Canonical(a) && c.Cued? && c.tight && Knows(a, c.noun) }

  ghost function Read(c: Cued): set<Noun> { if c.Cued? then {c.noun} else {} }

  /** Read the rest of an atom. */
  method ReadAtom(root: Root, bsr: Bsr, dict: Dict<nat>, ghost b: seq<bool>, cur: nat, ghost done: map<nat, Noun>)
    returns (res: Result, out: nat, ghost c: Cued)
    requires root.Valid() && dict.Valid() && Completed(root.h, root.a, |b|, dict.m, done)
    requires At(bsr, b) && bsr.bits == cur + 1 && !b[cur]
    modifies root, bsr, dict
    ensures root.Valid() && dict.Valid() && Grows(old(root.a), root.a)
    ensures c == Cue(b, cur, done) && Adds(old(root.a), root.a, Read(c))
    ensures res == Full ==> c.Cued? && Sound(root.a) && Crammed(root.h, old(root.a), root.a, c)
    ensures res != Good && res != Full ==> c == Failed && root.a == old(root.a)
    ensures Familiar(old(root.a), c) ==> root.a == old(root.a) && (res == Full ==> Clash(root.h, c.done.Keys))
    ensures
      res == Good ==>
        && At(bsr, b) && Live(root.a, out) && c.Cued? && c.noun == Denote(root.a, out) && c.end == bsr.bits > cur
        && Completed(root.h, root.a, |b|, dict.m, c.done)
        && (Canonical(root.a) <==> Canonical(old(root.a)) && c.tight)
  {
    hide AreBytes, Represents, Healthy, Crammed, Clash, Spent, Next, Cue, ReadRub, Value, Stream, Sound, Denote, Ok, MugBytes, BytesOf, Met,
      Pow2, Completed, Grows, Canonical, Knows, Live, Adds;
    HealthySound(root.h, root.a);
    AddsNone(root.a);
    GrowsSelf(root.a);
    ghost var r := b[cur..];
    NextTag(r);
    CueToken(b, cur, done);
    After(b, cur, 1);
    c, out := Cue(b, cur, done), 0;
    AddsMore(root.a, root.a, {}, Read(c));
    var len;
    res, len := bsr.ReadRubLen();
    if res != Good { return; }
    RubFits(r[1..]);
    After(b, cur + 1, ReadRub(r[1..]).used);
    if len > |bsr.Rest()| { return Past, 0, c; }
    ghost var used := 1 + ReadRub(r[1..]).used;
    Within(b, cur, used, used + len);
    ghost var was := root.a;
    var ok;
    ok, out := TakeAtom(root, bsr, len, b);
    if !ok {
      CrammedAtom(root.h, root.a, c);
      return Full, 0, c;
    }
    HealthySound(root.h, root.a);
    Kept(root.h, was, root.a, |b|, dict.m, done, [], []);
    ok := Complete(root, dict, cur, out, b, done);
    if !ok {
      assert done.Keys + {cur} == c.done.Keys;
      CrammedClash(root.h, was, root.a, c);
      return Full, 0, c;
    }
  }

  lemma GrowsSelf(a: Arena)
    ensures Grows(a, a)
  {
  }

  /** Read tokens until a noun is complete, opening a frame for every cell. */
  method CueNext(root: Root, s: seq<Frame>, bsr: Bsr, dict: Dict<nat>, ghost b: seq<bool>, ghost fs: seq<Open>,
          ghost done: map<nat, Noun>)
    returns (res: Result, s': seq<Frame>, out: nat, ghost fs': seq<Open>, ghost c: Cued)
    requires root.Valid() && dict.Valid() && At(bsr, b) && |b| < TAG
    requires Completed(root.h, root.a, |b|, dict.m, done) && Frames(root.a, |b|, s, fs)
    modifies root, bsr, dict
    ensures root.Valid() && dict.Valid() && Grows(old(root.a), root.a)
    ensures res != Good && res != Full ==> Finish(b, fs, Cue(b, old(bsr.bits), done)) == Failed
    ensures
      res == Good || res == Full ==>
        c.Cued? && c.end <= |b| && Finish(b, fs', c) == Finish(b, fs, Cue(b, old(bsr.bits), done)) && (Tight(fs') <==> Tight(fs))
    ensures res == Full ==> Sound(root.a) && Crammed(root.h, old(root.a), root.a, c)
    ensures Adds(old(root.a), root.a, Read(c)) && (c.Failed? ==> root.a == old(root.a))
    ensures Familiar(old(root.a), c) ==> root.a == old(root.a) && (res == Full ==> Clash(root.h, c.done.Keys))
    ensures
      res == Good ==>
        && At(bsr, b) && Frames(root.a, |b|, s', fs') && Live(root.a, out)
        && c.noun == Denote(root.a, out) && c.end == bsr.bits > old(bsr.bits)
        && Completed(root.h, root.a, |b|, dict.m, c.done)
        && (Canonical(root.a) <==> Canonical(old(root.a)) && c.tight)
  {
    hide AreBytes, Represents, Healthy, Crammed, Clash, Spent, Next, Cue, Stream, Sound, Denote, Ok, Completed, Grows, Canonical, Finish, Tight,
      Frames, ReadRub, Value, Met, Pow2, RefTag, Index, Live, Familiar, Adds;
    HealthySound(root.h, root.a);
    AddsNone(root.a);
    GrowsSelf(root.a);
    s', fs', out, c := s, fs, 0, Failed;
    NotFamiliar(root.a);
    while true
      invariant root.Valid() && dict.Valid() && At(bsr, b) && bsr.bits >= old(bsr.bits)
      invariant root.a == old(root.a) && Sound(root.a) && dict.m == old(dict.m) && Frames(root.a, |b|, s', fs') && c == Failed
      invariant Finish(b, fs', Cue(b, bsr.bits, done)) == Finish(b, fs, Cue(b, old(bsr.bits), done))
      invariant Tight(fs') <==> Tight(fs)
      decreases |b| - bsr.bits
    {
      var cur := bsr.bits;
      ghost var r := b[cur..];
      NextTag(r);
      CueToken(b, cur, done);
      FinishFailed(b, fs');
      var tag;
      res, tag := bsr.ReadTag();
      if res != Good { return; }
      if tag == CellTag {
        After(b, cur, 2);
        OpenCell(b, fs', cur, done);
        PushFrame(root.a, |b|, s', fs', cur);
        s', fs' := s' + [Frame(CUE_HEAD, cur)], fs' + [OpenHead(cur)];
      } else if tag == BackTag {
        After(b, cur, 2);
        res, out, c := ReadBack(root, bsr, dict, b, cur, done);
        AddsMore(root.a, root.a, {}, Read(c));
        return;
      } else {
        After(b, cur, 1);
        ghost var was := root.a;
        res, out, c := ReadAtom(root, bsr, dict, b, cur, done);
        HealthySound(root.h, root.a);
        Kept(root.h, was, root.a, |b|, map[], map[], s', fs');
        return;
      }
    }
  }

  lemma NotFamiliar(a: Arena)
    ensures !Familiar(a, Failed)
  {
  }

  lemma PushFrame(a: Arena, bits: nat, s: seq<Frame>, fs: seq<Open>, cur: nat)
    requires Sound(a) && Frames(a, bits, s, fs) && cur < bits
    ensures Frames(a, bits, s + [Frame(CUE_HEAD, cur)], fs + [OpenHead(cur)])
    ensures Tight(fs + [OpenHead(cur)]) <==> Tight(fs)
  {
    hide Sound, Denote, Ok;
    var s', fs' := s + [Frame(CUE_HEAD, cur)], fs + [OpenHead(cur)];
    forall i | 0 <= i < |s'| ensures FrameOk(a, bits, s'[i], fs'[i]) {
      if i < |s| { assert FrameOk(a, bits, s[i], fs[i]); }
    }
    assert forall i | 0 <= i < |fs| :: fs'[i] == fs[i];
  }

  /** Turn the top frame from its head to its tail. */
  lemma TurnFrame(a: Arena, bits: nat, s: seq<Frame>, fs: seq<Open>, ref: nat, tight: bool)
    requires Sound(a) && Frames(a, bits, s, fs) && s != [] && s[|s| - 1].ref == CUE_HEAD && Live(a, ref)
    ensures
      var k := |s| - 1;
      var fs' := fs[k := OpenTail(Denote(a, ref), s[k].bits, tight)];
      && fs[k] == OpenHead(s[k].bits) && Frames(a, bits, s[k := s[k].(ref := ref)], fs')
      && (Tight(fs') <==> Tight(fs) && tight)
      && fs == fs[..k] + [fs[k]] && fs' == fs[..k] + [fs'[k]]
  {
    hide Sound, Denote;
    var k := |s| - 1;
    var s', fs' := s[k := s[k].(ref := ref)], fs[k := OpenTail(Denote(a, ref), s[k].bits, tight)];
    assert FrameOk(a, bits, s[k], fs[k]);
    forall i | 0 <= i < |s| ensures FrameOk(a, bits, s'[i], fs'[i]) { assert FrameOk(a, bits, s[i], fs[i]); }
    if Tight(fs') {
      forall i | 0 <= i < |fs| && fs[i].OpenTail? ensures fs[i].tight { assert fs'[i].OpenTail?; }
      assert fs'[k].tight;
    }
    if Tight(fs) && tight { forall i | 0 <= i < |fs| && fs'[i].OpenTail? ensures fs'[i].tight { assert i != k ==> fs[i].OpenTail?; } }
  }

  lemma PopFrame(a: Arena, bits: nat, s: seq<Frame>, fs: seq<Open>)
    requires Sound(a) && Frames(a, bits, s, fs) && s != [] && s[|s| - 1].ref != CUE_HEAD
    ensures
      var k := |s| - 1;
      && fs[k].OpenTail? && fs[k].bits == s[k].bits < bits && Live(a, s[k].ref) && fs[k].hed == Denote(a, s[k].ref)
      && Frames(a, bits, s[..k], fs[..k]) && fs == fs[..k] + [fs[k]]
      && (Tight(fs[..k]) && fs[k].tight <==> Tight(fs))
  {
    hide Sound, Denote, Ok;
    var k := |s| - 1;
    assert FrameOk(a, bits, s[k], fs[k]);
    forall i | 0 <= i < k ensures FrameOk(a, bits, s[..k][i], fs[..k][i]) { assert FrameOk(a, bits, s[i], fs[i]); }
  }

  /** The head of the top frame's cell is read: read on until its tail is. */
  method ReadTail(root: Root, s: seq<Frame>, bsr: Bsr, dict: Dict<nat>, ref: nat,
                  ghost b: seq<bool>, ghost fs: seq<Open>, ghost c: Cued, ghost all: Cued, ghost a0: Arena)
    returns (res: Result, s': seq<Frame>, out: nat, ghost fs': seq<Open>, ghost c': Cued)
    requires root.Valid() && dict.Valid() && At(bsr, b) && |b| < TAG
    requires Sound(root.a) && Frames(root.a, |b|, s, fs) && s != [] && s[|s| - 1].ref == CUE_HEAD
    requires Live(root.a, ref) && c.Cued? && c.noun == Denote(root.a, ref) && c.end == bsr.bits
    requires Completed(root.h, root.a, |b|, dict.m, c.done) && Finish(b, fs, c) == all
    requires Canonical(root.a) <==> Canonical(a0) && Tight(fs) && c.tight
    requires Sound(a0) && Grows(a0, root.a) && (Familiar(a0, all) ==> root.a == a0) && (all.Cued? ==> Adds(a0, root.a, Whole(all)))
    modifies root, bsr, dict
    ensures root.Valid() && dict.Valid() && Sound(root.a) && Grows(a0, root.a)
    ensures
      res == Good ==>
        && At(bsr, b) && bsr.bits > old(bsr.bits) && Frames(root.a, |b|, s', fs') && Live(root.a, out)
        && c'.Cued? && c'.noun == Denote(root.a, out) && c'.end == bsr.bits
        && Completed(root.h, root.a, |b|, dict.m, c'.done) && Finish(b, fs', c') == all
        && (Canonical(root.a) <==> Canonical(old(root.a)) && c'.tight) && (Tight(fs') <==> Tight(fs) && c.tight)
    ensures res != Good && res != Full ==> all == Failed
    ensures all.Cued? ==> Adds(a0, root.a, Whole(all)) && (res == Full ==> Crammed(root.h, a0, root.a, all))
    ensures Familiar(a0, all) ==> root.a == a0 && (res == Full ==> Clash(root.h, all.done.Keys))
  {
    hide AreBytes, Represents, Healthy, Crammed, Clash, Spent, Next, Cue, Stream, Sound, Denote, Ok, Completed, Grows, Canonical, Finish,
      Tight, Frames, Familiar, Subnouns, Live, Adds;
    var k := |s| - 1;
    ghost var was := root.a;
    NotFamiliar(a0);
    FramesSize(root.a, |b|, s, fs);
    TurnFrame(root.a, |b|, s, fs, ref, c.tight);
    HeadRead(b, fs[..k], s[k].bits, c);
    TightSoFar(b, fs, c, all);
    res, s', out, fs', c' := CueNext(root, s[k := s[k].(ref := ref)], bsr, dict, b, fs[k := OpenTail(c.noun, s[k].bits, c.tight)], c.done);
    HealthySound(root.h, root.a);
    if res == Good || res == Full { Reading(a0, was, root.a, root.h, b, fs', c', all); }
    ReadAdds(a0, was, root.a, c', all, res == Good || res == Full);
    GrowsOn(a0, was, root.a);
  }

  /** The tail of the top frame's cell is read: store the cell. */
  method CloseCell(root: Root, dict: Dict<nat>, s: seq<Frame>, ref: nat,
                   ghost b: seq<bool>, ghost fs: seq<Open>, ghost c: Cued, ghost all: Cued, ghost a0: Arena)
    returns (ok: bool, cel: nat, ghost c': Cued)
    requires root.Valid() && dict.Valid() && Sound(root.a) && Frames(root.a, |b|, s, fs) && s != [] && s[|s| - 1].ref != CUE_HEAD
    requires Live(root.a, ref) && c.Cued? && c.noun == Denote(root.a, ref) && c.end <= |b|
    requires Completed(root.h, root.a, |b|, dict.m, c.done) && Finish(b, fs, c) == all && (Familiar(a0, all) ==> root.a == a0)
    requires Canonical(root.a) <==> Canonical(a0) && Tight(fs) && c.tight
    modifies root, dict
    ensures root.Valid() && dict.Valid() && Sound(root.a) && Grows(old(root.a), root.a)
    ensures c'.Cued? && c'.end == c.end && Finish(b, fs[..|s| - 1], c') == all && Adds(old(root.a), root.a, {c'.noun})
    ensures
      ok ==>
        && Live(root.a, cel) && c'.noun == Denote(root.a, cel) && Frames(root.a, |b|, s[..|s| - 1], fs[..|s| - 1])
        && Completed(root.h, root.a, |b|, dict.m, c'.done) && (Canonical(root.a) <==> Canonical(old(root.a)))
        && (Tight(fs[..|s| - 1]) && c'.tight <==> Tight(fs) && c.tight)
    ensures !ok && all.Cued? ==> Crammed(root.h, a0, root.a, all)
    ensures Familiar(a0, all) ==> root.a == a0 && (!ok ==> Clash(root.h, all.done.Keys))
  {
    hide AreBytes, Represents, Healthy, Crammed, Clash, Spent, Next, Cue, Stream, Sound, Denote, Ok, Completed, Grows, Canonical, Finish, Tight,
      Frames, Familiar, Leads, Subnouns, Live, HasCell, Mug, MugBoth, Adds;
    var k := |s| - 1;
    ghost var was := root.a;
    HealthySound(root.h, root.a);
    FramesSize(root.a, |b|, s, fs);
    PopFrame(root.a, |b|, s, fs);
    TailRead(b, fs[..k], fs[k].hed, fs[k].bits, fs[k].tight, c);
    c' := Cued(Cell(fs[k].hed, c.noun), c.end, c.done[fs[k].bits := Cell(fs[k].hed, c.noun)], fs[k].tight && c.tight);
    TightSoFar(b, fs, c, all);
    Reading(a0, was, was, root.h, b, fs[..k], c', all);
    if Familiar(a0, all) { ReadCell(root.h, root.a, c', s[k].ref, ref); }
    ghost var mug := MugBoth(root.h, Mug(root.h, root.a, s[k].ref), Mug(root.h, root.a, ref));
    ok, cel := root.Cons(s[k].ref, ref);
    HealthySound(root.h, root.a);
    AddsCell(was, root.a, s[k].ref, ref);
    if !ok {
      SpentCells(root.a, mug);
      CrammedCell(root.h, root.a, s[k].ref, ref, c');
      Reading(a0, was, root.a, root.h, b, fs[..k], c', all);
      return;
    }
    Kept(root.h, was, root.a, |b|, dict.m, c.done, s[..k], fs[..k]);
    SameBytes(was, root.a);
    ok := Complete(root, dict, s[k].bits, cel, b, c.done);
    if !ok {
      assert c.done.Keys + {s[k].bits} == c'.done.Keys;
      CrammedClash(root.h, was, root.a, c');
      Reading(a0, was, root.a, root.h, b, fs[..k], c', all);
    }
  }

  /** Where reading `all` ends up. */
  ghost predicate Outcome(h: Hash, a0: Arena, a: Arena, res: Result, ref: nat, all: Cued) {
    && Sound(a) && Grows(a0, a)
    && (res == Good ==> Live(a, ref) && all.Cued? && all.noun == Denote(a, ref) && !Clash(h, all.done.Keys))
    && (res == Good ==> (Canonical(a) <==> Canonical(a0) && all.tight))
    && (res == Full && all.Cued? ==> Crammed(h, a0, a, all))
    && (res != Good && res != Full ==> all == Failed)
    && (all.Cued? ==> Adds(a0, a, Whole(all)))
    && (Familiar(a0, all) ==> a == a0 && (res == Full ==> Clash(h, all.done.Keys)))
  }

  /** Read a whole noun, with a stack of the cells that are open. */
  method ReadAll(root: Root, bsr: Bsr, dict: Dict<nat>, ghost b: seq<bool>) returns (res: Result, ref: nat)
    requires root.Valid() && dict.Valid() && At(bsr, b) && |b| < TAG && bsr.bits == 0 && dict.m == map[]
    modifies root, bsr, dict
    ensures root.Valid() && Outcome(root.h, old(root.a), root.a, res, ref, Cue(b, 0, map[]))
  {
    hide AreBytes, Represents, Healthy, Crammed, Clash, Spent, Next, Cue, Stream, Sound, Denote, Ok, Completed, Grows, Canonical, Finish, Tight,
      Frames, Familiar, Leads, Subnouns, Live, Adds, FrameOk, MugBytes, BytesOf, Value, Low, Pow2, Marks, Met, Mug, JamBits;
    ghost var a0, all := root.a, Cue(b, 0, map[]);
    HealthySound(root.h, a0);
    GrowsSelf(a0);
    NothingYet(root.h, a0, b);
    NotFamiliar(a0);
    AddsNone(a0);
    AddsMore(a0, a0, {}, Whole(all));
    var s: seq<Frame>;
    ghost var fs, c;
    res, s, ref, fs, c := CueNext(root, [], bsr, dict, b, [], map[]);
    HealthySound(root.h, root.a);
    if res == Good || res == Full { Reading(a0, a0, root.a, root.h, b, fs, c, all); }
    ReadAdds(a0, a0, root.a, c, all, res == Good || res == Full);
    while s != [] && res == Good
      invariant root.Valid() && Sound(root.a) && Grows(a0, root.a)
      invariant
        res == Good ==>
          && dict.Valid() && At(bsr, b) && Frames(root.a, |b|, s, fs) && Live(root.a, ref)
          && c.Cued? && c.noun == Denote(root.a, ref) && c.end == bsr.bits
          && Completed(root.h, root.a, |b|, dict.m, c.done)
          && Finish(b, fs, c) == all
          && (Canonical(root.a) <==> Canonical(a0) && Tight(fs) && c.tight)
      invariant res != Good && res != Full ==> all == Failed
      invariant all.Cued? ==> Adds(a0, root.a, Whole(all))
      invariant res == Full && all.Cued? ==> Crammed(root.h, a0, root.a, all)
      invariant Familiar(a0, all) ==> root.a == a0 && (res == Full ==> Clash(root.h, all.done.Keys))
      decreases res == Good, |b| - bsr.bits, |s|
    {
      var k := |s| - 1;
      ghost var was := root.a;
      FramesSize(root.a, |b|, s, fs);
      if s[k].ref == CUE_HEAD {
        res, s, ref, fs, c := ReadTail(root, s, bsr, dict, ref, b, fs, c, all, a0);
      } else {
        var ok;
        ok, ref, c := CloseCell(root, dict, s, ref, b, fs, c, all, a0);
        Reading(a0, a0, root.a, root.h, b, fs[..k], c, all);
        ReadAdds(a0, was, root.a, c, all, true);
        GrowsOn(a0, was, root.a);
        s, fs := s[..k], fs[..k];
        if !ok { res := Full; }
      }
      HealthySound(root.h, root.a);
    }
    if res == Good {
      AllRead(root.a, b, s, fs, c);
      NoClash(root.h, root.a, |b|, dict.table, dict.m, c.done);
    }
  }

  /** Read a whole noun from a byte string: exactly what the recursive reader reads, as a reference.
      The arena stays canonical if and only if no atom of up to 62 bits is given more; and it stays
      as it is if it knows the noun already. Into a canonical arena, a tight stream of a noun is read
      if and only if the arena has room for it and no eleven of its positions have one mug. */
  method CueBytes(root: Root, byt: seq<nat>) returns (res: Result, ref: nat)
    requires root.Valid() && AreBytes(byt)
    modifies root
    ensures root.Valid() && Grows(old(root.a), root.a)
    ensures |byt| > MAX_BYTES ==> res == Meme && root.a == old(root.a)
    ensures
      var c := Cue(Stream(byt), 0, map[]);
      && (res == Good ==> Live(root.a, ref) && c.Cued? && c.noun == Denote(root.a, ref) && !Clash(root.h, c.done.Keys))
      && (res == Good ==> (Canonical(root.a) <==> Canonical(old(root.a)) && c.tight))
      && (res == Full && c.Cued? ==> Sound(root.a) && Crammed(root.h, old(root.a), root.a, c))
      && (res != Good && res != Full && |byt| <= MAX_BYTES ==> c == Failed)
      && (c.Cued? ==> Adds(old(root.a), root.a, Subnouns(c.noun)))
      && (Canonical(old(root.a)) && c.Cued? && c.tight && |byt| <= MAX_BYTES ==>
            (res == Good <==> !NoRoom(root.h, old(root.a), c.noun) && !Clash(root.h, c.done.Keys)))
      && (Familiar(old(root.a), c) ==> root.a == old(root.a) && (res == Full ==> Clash(root.h, c.done.Keys)))
  {
    hide AreBytes, Represents, Healthy, Crammed, Clash, Spent, Cue, Stream, Sound, Denote, Ok, Completed, Grows, Canonical, Familiar,
      Subnouns, Live, Adds, Frames, Finish;
    ghost var a0, all := root.a, Cue(Stream(byt), 0, map[]);
    HealthySound(root.h, a0);
    if |byt| > MAX_BYTES {
      GrowsSelf(a0);
      AddsNone(a0);
      AddsMore(a0, a0, {}, Whole(all));
      return Meme, 0;
    }
    var bsr := new Bsr(byt);
    var dict := new Dict<nat>(FIB11, FIB12);
    NothingYet(root.h, a0, Stream(byt));
    res, ref := ReadAll(root, bsr, dict, Stream(byt));
    if Canonical(a0) && all.Cued? && all.tight { Verdict(root, a0, res, ref, all); }
  }

  /** When reading succeeds, in terms of the arena before. */
  lemma Verdict(root: Root, a0: Arena, res: Result, ref: nat, all: Cued)
    requires root.Valid() && Sound(root.a) && Healthy(root.h, a0) && Grows(a0, root.a) && Canonical(a0) && all.Cued? && all.tight
    requires Adds(a0, root.a, Whole(all)) && (res == Good || res == Full)
    requires
      res == Good ==>
        Canonical(root.a) && Live(root.a, ref) && Denote(root.a, ref) == all.noun && !Clash(root.h, all.done.Keys)
    requires res == Full ==> Crammed(root.h, a0, root.a, all)
    ensures res == Good <==> !NoRoom(root.h, a0, all.noun) && !Clash(root.h, all.done.Keys)
  {
    hide Represents, Healthy, Clash, Spent, Sound, Denote, Grows, Canonical, Subnouns, Live, Adds, NoRoom, Stopped, AtomMap, CellMap;
    HealthySound(root.h, a0);
    if res == Good {
      KnownHere(root.a, ref);
      HadRoom(root.h, a0, root.a, root.atoms, root.cells, all.noun);
    } else if !Clash(root.h, all.done.Keys) {
      HadNoRoom(root.h, a0, root.a, all.noun);
    }
  }

  /** How what has been read relates to all that will be. */
  lemma Reading(a0: Arena, was: Arena, a: Arena, h: Hash, b: seq<bool>, fs: seq<Open>, c: Cued, all: Cued)
    requires Sound(a) && c.Cued? && c.end <= |b| && Finish(b, fs, c) == all
    ensures Familiar(a0, all) ==> Familiar(a0, c) && all.Cued?
    ensures all.Cued? ==> c.noun in Subnouns(all.noun)
    ensures all.Cued? && Crammed(h, was, a, c) && (Canonical(a0) && all.tight ==> Canonical(was)) ==> Crammed(h, a0, a, all)
    ensures all.Cued? && Clash(h, c.done.Keys) ==> Clash(h, all.done.Keys)
  {
    hide Sound, Clash, Spent, Cue, Finish, Knows, Canonical, Subnouns, Tight, Stopped;
    FinishHolds(b, fs, c);
    if Familiar(a0, all) { KnowsInside(a0, c.noun, all.noun); }
    if all.Cued? && Clash(h, c.done.Keys) { ClashMore(h, c.done.Keys, all.done.Keys); }
    if all.Cued? && Stopped(h, a, Subnouns(c.noun)) {
      SubnounsInside(c.noun, all.noun);
      StoppedMore(h, a, Subnouns(c.noun), Subnouns(all.noun));
    }
  }

  lemma TightSoFar(b: seq<bool>, fs: seq<Open>, c: Cued, all: Cued)
    requires c.Cued? && c.end <= |b| && Finish(b, fs, c) == all
    ensures all.Cued? && all.tight ==> c.tight && Tight(fs)
  {
    hide Finish, Tight, Subnouns;
    FinishHolds(b, fs, c);
  }

  /** The noun read, with all that is in it. */
  ghost function Whole(all: Cued): set<Noun> { if all.Cued? then Subnouns(all.noun) else {} }

  lemma ReadAdds(a0: Arena, was: Arena, a: Arena, c: Cued, all: Cued, going: bool)
    requires Sound(a0) && (all.Cued? ==> Adds(a0, was, Whole(all))) && Adds(was, a, Read(c))
    requires all.Cued? && going ==> c.Cued? && c.noun in Subnouns(all.noun)
    requires all.Cued? ==> going
    ensures all.Cued? ==> Adds(a0, a, Whole(all))
  {
    hide Adds, Sound, Subnouns;
    if all.Cued? {
      AddsMore(was, a, Read(c), Whole(all));
      AddsTwice(a0, was, a, Whole(all));
    }
  }

  lemma CrammedAtom(h: Hash, a: Arena, c: Cued)
    requires Sound(a) && Spent(a) && c.Cued? && c.noun.Atom? && (c.tight ==> Refused(h, a, c.noun))
    ensures Crammed(h, a, a, c)
  {
    hide Spent, Sound, Refused, Clash;
    if c.tight { StoppedAt(h, a, Subnouns(c.noun), c.noun); }
  }

  lemma CrammedCell(h: Hash, a: Arena, hed: nat, tal: nat, c: Cued)
    requires Healthy(h, a) && Spent(a) && Live(a, hed) && Live(a, tal) && !HasCell(a, hed, tal)
    requires |a.heads| == TAG || Crowded(CellMap(a), MugBoth(h, Mug(h, a, hed), Mug(h, a, tal)))
    requires c.Cued? && c.noun == Cell(Denote(a, hed), Denote(a, tal))
    ensures Crammed(h, a, a, c)
  {
    hide Spent, Refused, Clash, Crowded, HasCell, Canonical, Mug, MugBoth, Unique, Hashed, Stopped, Denote;
    if Canonical(a) {
      RefusedCell(h, a, hed, tal);
      StoppedAt(h, a, Subnouns(c.noun), c.noun);
    }
  }

  lemma CrammedClash(h: Hash, a0: Arena, a: Arena, c: Cued)
    requires Sound(a) && c.Cued? && Clash(h, c.done.Keys)
    ensures Crammed(h, a0, a, c)
  {
  }

  /** A cell of a familiar noun is stored already. */
  lemma ReadCell(h: Hash, a: Arena, c: Cued, hed: nat, tal: nat)
    requires Healthy(h, a) && Familiar(a, c) && Live(a, hed) && Live(a, tal) && c.noun == Cell(Denote(a, hed), Denote(a, tal))
    ensures HasCell(a, hed, tal)
  {
    KnowsCell(a, hed, tal);
  }

  lemma FramesSize(a: Arena, bits: nat, s: seq<Frame>, fs: seq<Open>)
    requires Sound(a)
    ensures Frames(a, bits, s, fs) ==> |s| == |fs|
  {
  }

  lemma SameBytes(a: Arena, b: Arena)
    requires a.bytes == b.bytes
    ensures Canonical(a) == Canonical(b)
  {
  }

  lemma GrowsOn(a: Arena, b: Arena, c: Arena)
    requires Grows(a, b) && Grows(b, c)
    ensures Grows(a, c)
  {
  }

  lemma NothingYet(h: Hash, a: Arena, b: seq<bool>)
    requires Sound(a)
    ensures Completed(h, a, |b|, map[], map[]) && Frames(a, |b|, [], []) && Finish(b, [], Cue(b, 0, map[])) == Cue(b, 0, map[])
    ensures b[0..] == b && Tight([])
  {
    hide Cue;
  }

  lemma AllRead(a: Arena, b: seq<bool>, s: seq<Frame>, fs: seq<Open>, c: Cued)
    requires Sound(a) && s == [] && Frames(a, |b|, s, fs) && c.Cued? && c.end <= |b|
    ensures fs == [] && Finish(b, fs, c) == c && Tight(fs)
  {
  }

  // ---- a stream that costs the arena its unique references ----

  /** Zero, written with 63 bits, is stored: the arena then has a second reference for it. */
  method CueZero(h: Hash) returns (root: Root)
    ensures root.Valid() && Sound(root.a) && !Canonical(root.a)
    ensures Live(root.a, 0) && Live(root.a, TAG) && Denote(root.a, 0) == Denote(root.a, TAG) == Atom(0)
  {
    hide Represents, Healthy, Sound, Denote, Ok, Live, Stream, Value, Low, Pow2, Met, AreBytes, BitWriter.Mat, Cue, Adds, Crammed, Canonical,
      Clash, Grows, Familiar, Subnouns, Knows, Zeros;
    root := new Root(h, FIB11, FIB12);
    ghost var a0 := root.a;
    NothingStored(a0);
    var bsw := new BitWriter.Bsw(FIB11, FIB12);
    var zeros := seq(8, i => 0);
    ZeroBytes(zeros);
    bsw.AtomBytes(63, zeros);
    ghost var p := Stream(zeros)[..63];
    assert [] + ([false] + BitWriter.Mat(p)) == [false] + BitWriter.Mat(p);
    var len, byt := bsw.Done();
    SixtyThree(p);
    PaddedAtom(p, Zeros(8 * len - |bsw.written|));
    SomeBytes(byt, len);
    var res, ref := CueBytes(root, byt[..len]);
    assert map[0 := Atom(0)].Keys == {0};
    ZeroStored(root, a0, res, Cue(Stream(byt[..len]), 0, map[]));
  }

  lemma NothingStored(a: Arena)
    requires a == Arena([], [], [], [], [])
    ensures Sound(a) && Canonical(a)
  {
  }

  lemma ZeroBytes(zeros: seq<nat>)
    requires zeros == seq(8, i => 0)
    ensures AreBytes(zeros) && Value(Stream(zeros)[..63]) == 0 && |Stream(zeros)| == 64
  {
    StreamZeros(8);
    AllZeros(Stream(zeros)[..63]);
    ZeroValue(63);
  }

  lemma SixtyThree(p: seq<bool>)
    requires |p| == 63
    ensures 63 < Pow2(62) && |[false] + BitWriter.Mat(p)| == 76
  {
    SixtyTwoBits();
    assert Met(63) == 6;
  }

  lemma SomeBytes(byt: seq<nat>, len: nat)
    requires AreBytes(byt) && len <= |byt|
    ensures AreBytes(byt[..len])
  {
  }

  /** An arena in which nothing but zero was stored is not out of room. */
  lemma ZeroStored(root: Root, a0: Arena, res: Result, c: Cued)
    requires root.Valid() && a0 == Arena([], [], [], [], []) && Adds(a0, root.a, Subnouns(Atom(0)))
    requires (res == Good ==> !Canonical(root.a)) && (res == Full ==> Crammed(root.h, a0, root.a, c) && c.done.Keys == {0}) && res in {Good, Full}
    ensures Sound(root.a) && !Canonical(root.a)
    ensures Live(root.a, 0) && Live(root.a, TAG) && Denote(root.a, 0) == Denote(root.a, TAG) == Atom(0)
  {
    hide Represents, MugBytes, Value, Stream, BytesOf, Spent;
    HealthySound(root.h, root.a);
    var a := root.a;
    if |a.bytes| > 1 { BytesUnique(a.bytes[0], a.bytes[1]); }
    if |a.heads| > 0 { NewCell(a0, a, Subnouns(Atom(0))); }
    OneNotSpent(a);
    if Clash(root.h, {0}) { ClashTwo(root.h, {0}); }
  }

  lemma NewCell(a0: Arena, a: Arena, ns: set<Noun>)
    requires Adds(a0, a, ns) && |a.heads| > |a0.heads|
    ensures exists n :: n in ns && n.Cell?
  {
    hide Value, Stream, Denote;
    var i := |a0.heads|;
    assert Cell(Denote(a, a.heads[i]), Denote(a, a.tails[i])) in ns;
  }

  lemma ClashTwo(h: Hash, keys: set<nat>)
    requires Clash(h, keys)
    ensures exists k, l :: k in keys && l in keys && k != l
  {
    hide MugBytes, BytesOf;
    var ps: seq<nat> :| Clashing(h, keys, ps);
    assert ps[0] in keys && ps[1] in keys && ps[0] != ps[1];
  }

  lemma OneNotSpent(a: Arena)
    requires Sound(a) && |a.bytes| <= 1 && a.heads == []
    ensures !Spent(a)
  {
    forall m ensures !Crowded(AtomMap(a), m) && !Crowded(CellMap(a), m) {
      if Crowded(AtomMap(a), m) { CrowdTwo(AtomMap(a), m); }
      if Crowded(CellMap(a), m) { CrowdTwo(CellMap(a), m); }
    }
  }

  // ---- there and back ----

  /** Serializing a reference and reading it back gives the same reference, and leaves the arena as it
      is. It succeeds if and only if the bits can be addressed, no eleven nouns in the one written have
      one mug, and no eleven of the positions of its atoms and cells do. */
  method ThereAndBack(root: Root, ref: nat) returns (ok: bool, back: nat)
    requires root.Valid() && Canonical(root.a) && Live(root.a, ref)
    modifies root
    ensures root.Valid() && root.a == old(root.a)
    ensures ok ==> back == ref
    ensures
      var n := Denote(root.a, ref);
      ok <==> |JamBits(n)| <= 8 * MAX_BYTES && !Collision(root.h, Subnouns(n)) && !Clash(root.h, Marks(n, 0, map[]))
  {
    hide Represents, Healthy, Crammed, Clash, Spent, Collision, Cue, Sound, Denote, Ok, Canonical, Stream, JamBits, Marks, Familiar,
      Subnouns, Live;
    HealthySound(root.h, root.a);
    back := 0;
    ghost var n, was := Denote(root.a, ref), root.a;
    var len, byt;
    ok, len, byt := JamRef(root, ref);
    if !ok || len > MAX_BYTES { return false, 0; }
    SixtyTwoBits();
    JamRoundTrip(n, Zeros(8 * len - |JamBits(n)|));
    ItIsFamiliar(was, ref, Cue(Stream(byt[..len]), 0, map[]));
    var res;
    res, back := CueBytes(root, byt[..len]);
    if res != Good { return false, 0; }
    RefsUnique(root.a, ref, back);
    return true, back;
  }

  lemma ItIsFamiliar(a: Arena, ref: nat, c: Cued)
    requires Sound(a) && Canonical(a) && Live(a, ref) && c.Cued? && c.tight && c.noun == Denote(a, ref)
    ensures Familiar(a, c)
  {
  }
}
