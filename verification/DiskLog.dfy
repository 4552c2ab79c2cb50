/** The event log's committer (pkg/urbit/vere/disk.c): events are planned in order, written in
    batches on another thread, and dropped from the queue once a batch is known to be stored. */
module DiskLog {
  import opened Nouns
  import opened Bits
  import opened BitWriter
  import opened JamSpec
  import opened HashCons
  import opened NounSerial

  /** An event: its number, a hash of the state it was computed on, and what happened. */
  datatype Fact = Fact(eve: nat, mug: nat, job: Noun)

  // ---- records ----

  /** The hash in four bytes, then the serialized noun. */
  function Serialize(f: Fact): seq<nat> {
    [f.mug % 0x100, f.mug / 0x100 % 0x100, f.mug / 0x1_0000 % 0x100, f.mug / 0x100_0000 % 0x100] + BytesOf(Value(JamBits(f.job)))
  }

  /** What reading a record gives. */
  function Deserialize(eve: nat, val: seq<nat>): Option<Fact> {
    if |val| <= 4 then None
    else
      var mug := val[0] + 0x100 * val[1] + 0x1_0000 * val[2] + 0x100_0000 * val[3];
      match Cue(Stream(val[4..]), 0, map[])
      case Failed => None
      case Cued(job, _, _, _) => Some(Fact(eve, mug, job))
  }

  lemma {:induction false} TopBit(v: nat)
    requires v > 0
    ensures Met(v) > 0 && Low(v, Met(v))[Met(v) - 1]
  {
    if v > 1 { TopBit(v / 2); }
  }

  /** A payload in self-delimiting form ends in a one. */
  lemma MatEnds(v: nat)
    ensures var m := MatOf(v); m != [] && m[|m| - 1]
  {
    hide Run;
    if v > 0 { TopBit(v); }
  }

  /** So does a serialized noun: its length shows in its number. */
  lemma {:induction false} JamEnds(n: Noun, pos: nat, seen: map<Noun, nat>)
    ensures var b := Jam(n, pos, seen).bits; b != [] && b[|b| - 1]
    decreases n
  {
    hide MatOf;
    if n.Atom? { MatEnds(n.value); }
    if n in seen {
      MatEnds(seen[n]);
    } else if n.Cell? {
      JamCell(n, pos, seen);
      var x := Jam(n.head, pos + 2, seen[n := pos]);
      JamEnds(n.tail, pos + 2 + |x.bits|, x.seen);
    }
  }

  lemma LastIsTop(b: seq<bool>)
    requires b != [] && b[|b| - 1]
    ensures Value(b) >= Pow2(|b| - 1)
  {
    hide Pow2, Value;
    assert b == b[..|b| - 1] + [true];
    ValueJoin(b[..|b| - 1], [true]);
    assert Value([true]) == 1 by { OneValue(); }
  }

  lemma OneValue()
    ensures Value([true]) == 1
  {
    assert [true][1..] == [];
    assert Value([]) == 0;
  }

  /** The bytes of a serialized noun are its bits, with zeros to the end of the last byte. */
  lemma JamBytes(n: Noun)
    ensures
      var byt, b := BytesOf(Value(JamBits(n))), JamBits(n);
      byt != [] && |b| <= 8 * |byt| && Stream(byt) == b + Zeros(8 * |byt| - |b|)
  {
    hide Pow2, Value, Stream, Low, Jam;
    var b := JamBits(n);
    var v := Value(b);
    var byt := BytesOf(v);
    JamEnds(n, 0, map[]);
    LastIsTop(b);
    BytesOfOk(v);
    BytesSome(v);
    ValueBound(b);
    ValueBound(Stream(byt));
    if |b| > 8 * |byt| { PowOrder(8 * |byt|, |b| - 1); }
    LowValue(b);
    LowValue(Stream(byt));
    LowOfSmall(v, |b|, 8 * |byt| - |b|);
  }

  /** A stored record reads back as the event. */
  lemma RecordRoundTrip(f: Fact)
    requires f.mug < 0x1_0000_0000 && |JamBits(f.job)| + 8 < Pow2(62)
    ensures Deserialize(f.eve, Serialize(f)) == Some(f)
  {
    hide Pow2, Value, Stream, Jam, Cue;
    var val, byt, b := Serialize(f), BytesOf(Value(JamBits(f.job))), JamBits(f.job);
    JamBytes(f.job);
    BytesTight(f.job);
    assert val[4..] == byt;
    MugBytesBack(f.mug);
    JamRoundTrip(f.job, Zeros(8 * |byt| - |b|));
  }

  /** No more bytes than the bits need. */
  lemma BytesTight(n: Noun)
    ensures 8 * |BytesOf(Value(JamBits(n)))| < |JamBits(n)| + 8
  {
    hide Pow2, Value, Stream, Low, Jam;
    var b := JamBits(n);
    var byt := BytesOf(Value(b));
    JamBytes(n);
    BytesOfOk(Value(b));
    ValueBound(b);
    TrimmedBig(byt);
    if |b| <= 8 * (|byt| - 1) { PowOrder(|b|, 8 * (|byt| - 1)); }
  }

  /** A trimmed byte string uses its last byte. */
  lemma {:induction false} TrimmedBig(x: seq<nat>)
    requires Trimmed(x) && x != []
    ensures Value(Stream(x)) >= Pow2(8 * (|x| - 1))
  {
    hide Value, Stream, Low, Pow2;
    FirstByteValue(x);
    if |x| == 1 {
      PowNone();
    } else {
      TrimmedBig(x[1..]);
      PowPlus(8, 8 * (|x| - 2));
      PowEight();
    }
  }

  lemma PowNone()
    ensures Pow2(0) == 1
  {
  }

  lemma MugBytesBack(m: nat)
    requires m < 0x1_0000_0000
    ensures m % 0x100 + 0x100 * (m / 0x100 % 0x100) + 0x1_0000 * (m / 0x1_0000 % 0x100) + 0x100_0000 * (m / 0x100_0000 % 0x100) == m
  {
  }

  // ---- the committer ----

  /** A write handed to the other thread: the first event, the records, and the outcome once known. */
  datatype Req = Req(eve: nat, recs: seq<seq<nat>>, ret: Option<bool>)

  /** A callback made: events up to `eve` are stored, or a write ending in `eve` failed. */
  datatype Call = WriteDone(eve: nat) | WriteBail(eve: nat)

  /** The stored log is the records of the first `n` events planned, without a gap. */
  ghost predicate Gapless(store: map<nat, seq<nat>>, planned: seq<Fact>, n: nat) {
    && n <= |planned| && (forall k :: k in store <==> 1 <= k <= n)
    && forall k | 1 <= k <= n :: store[k] == Serialize(planned[k - 1])
  }

  /** A batch that overwrites nothing extends the stored log, without a gap. */
  lemma Landed(store: map<nat, seq<nat>>, txn: map<nat, seq<nat>>, planned: seq<Fact>, dun: nat, kept: nat,
          recs: seq<seq<nat>>)
    requires Gapless(store, planned, kept) && dun <= kept && 0 < |recs| <= |planned| - dun
    requires forall i | 0 <= i < |recs| :: recs[i] == Serialize(planned[dun + i])
    requires forall k | dun + 1 <= k < dun + 1 + |recs| :: k !in store
    requires forall k :: k in txn <==> k in store || dun + 1 <= k < dun + 1 + |recs|
    requires (forall k | k in store :: txn[k] == store[k]) && forall k | dun + 1 <= k < dun + 1 + |recs| :: txn[k] == recs[k - (dun + 1)]
    ensures kept == dun && Gapless(txn, planned, dun + |recs|)
  {
    hide Serialize;
    assert dun + 1 !in store;
    forall k | 1 <= k <= dun + |recs| ensures txn[k] == Serialize(planned[k - 1]) {
      if k > dun { assert txn[k] == recs[k - (dun + 1)]; }
    }
  }

  /** A commit that took effect but was reported failed is refused on every retry: the log loses and
      repeats nothing, but acknowledgement stops there. */
  lemma RetryRefused(store: map<nat, seq<nat>>, planned: seq<Fact>, dun: nat, kept: nat, len: nat)
    requires Gapless(store, planned, kept) && len > 0 && dun <= kept
    ensures kept > dun <==> exists k | dun < k <= dun + len :: k in store
  {
    if kept > dun { assert dun + 1 in store; }
  }

  /** No event of a batch is stored. */
  ghost predicate Free(store: map<nat, seq<nat>>, eve: nat, n: nat) { forall k | eve <= k < eve + n :: k !in store }

  /** The batch is stored, and all that was is still there. */
  ghost predicate Batched(store: map<nat, seq<nat>>, txn: map<nat, seq<nat>>, eve: nat, recs: seq<seq<nat>>) {
    && (forall k | eve <= k < eve + |recs| :: k in txn && txn[k] == recs[k - eve])
    && forall k | k in store :: k in txn && txn[k] == store[k]
  }

  lemma FreeAll(store: map<nat, seq<nat>>, eve: nat, n: nat)
    requires Free(store, eve, n)
    ensures forall k | eve <= k < eve + n :: k !in store
  {
  }

  class Disk {
    var sen: nat
    var dun: nat
    var ted: bool
    var queue: seq<Fact>
    var req: Option<Req>
    var store: map<nat, seq<nat>>
    ghost var planned: seq<Fact>
    ghost var calls: seq<Call>
    ghost var kept: nat

    /** Every event ever planned, in order, and how far the log has got: `kept` events are stored,
        of which `dun` are acknowledged. */
    ghost predicate Valid()
      reads this
    {
      && dun <= sen == |planned| && (forall i | 0 <= i < sen :: planned[i].eve == i + 1)
      && queue == planned[dun..]
      && (req.Some? ==> ted && InFlight(req.value))
      && dun <= kept && Gapless(store, planned, kept)
    }

    /** The write in flight carries queued events from the first on. */
    ghost predicate InFlight(r: Req)
      requires dun <= |planned|
      reads this
    {
      && r.eve == dun + 1 && 0 < |r.recs| <= sen - dun && sen == |planned|
      && (forall i | 0 <= i < |r.recs| :: r.recs[i] == Serialize(planned[dun + i]))
      && (r.ret == Some(true) ==> dun + |r.recs| == kept)
    }

    /** A log opened on the events already stored. */
    constructor (store: map<nat, seq<nat>>, last: nat, ghost past: seq<Fact>)
      requires |past| == last && (forall i | 0 <= i < last :: past[i].eve == i + 1)
      requires forall k :: k in store <==> 1 <= k <= last
      requires forall k | 1 <= k <= last :: store[k] == Serialize(past[k - 1])
      ensures Valid() && planned == past && this.store == store && dun == last && queue == [] && !ted
    {
      sen, dun, ted, queue, req := last, last, false, [], None;
      this.store, planned, calls, kept := store, past, [], last;
    }

    /** Events are stored that were reported as failed: every retry will be refused, as it would overwrite them. */
    ghost predicate Stuck()
      reads this
    {
      kept > dun && (req.Some? ==> req.value.ret != Some(true))
    }

    /** A log that is stuck stays so: nothing more is stored or acknowledged. */
    twostate predicate StuckStays()
      reads this
    {
      old(Stuck()) ==> Stuck() && dun == old(dun) && store == old(store)
    }

    /** What no step undoes: planned and stored events stay, and acknowledgement only advances. */
    twostate predicate Onward()
      reads this
    {
      && old(planned) <= planned && old(dun) <= dun
      && forall k | k in old(store) :: k in store && store[k] == old(store)[k]
    }

    /** Plan the next event, and start a write if none is in flight. */
    method Plan(tac: Fact)
      requires Valid() && tac.eve == 1 + sen
      modifies this
      ensures Valid() && Onward() && planned == old(planned) + [tac] && dun == old(dun) && store == old(store)
      ensures if old(ted) then ted && req == old(req) else ted && Takes(req)
      ensures StuckStays() && (Stuck() <==> old(Stuck()))
    {
      hide Serialize;
      sen := sen + 1;
      queue := queue + [tac];
      planned := planned + [tac];
      Commit();
    }

    /** Plan an event of the boot sequence, without starting a write. */
    method BootPlan(job: Noun)
      requires Valid() && (queue == [] ==> sen == 0)
      modifies this
      ensures Valid() && Onward() && planned == old(planned) + [Fact(old(sen) + 1, 0, job)]
      ensures dun == old(dun) && store == old(store) && ted == old(ted) && req == old(req)
      ensures StuckStays() && (Stuck() <==> old(Stuck()))
    {
      hide Serialize;
      sen := sen + 1;
      queue := queue + [Fact(sen, 0, job)];
      planned := planned + [Fact(sen, 0, job)];
    }

    /** Start writing the boot sequence. */
    method BootSave()
      requires Valid() && dun == 0
      modifies this
      ensures Valid() && Onward() && planned == old(planned) && dun == 0 && store == old(store)
      ensures if old(ted) || sen == 0 then req == old(req) && ted == old(ted) else ted && Takes(req)
      ensures StuckStays() && (Stuck() <==> old(Stuck()))
    {
      Commit();
    }

    /** A write of everything in the queue. */
    ghost predicate Takes(r: Option<Req>)
      reads this
    {
      r.Some? && r.value.eve == dun + 1 && |r.value.recs| == |queue| && r.value.ret == None
    }

    /** Start a write of all queued events, unless one is in flight or there are none. */
    method Commit()
      requires Valid()
      modifies this`ted, this`req
      ensures Valid()
      ensures if old(ted) || sen == dun then req == old(req) && ted == old(ted) else ted && Takes(req)
    {
      hide Serialize;
      if !ted && sen > dun {
        var r := Batch(sen - dun);
        assert !ted;
        ted := true;
        req := Some(r);
      }
    }

    /** Serialize the first `len` events of the queue. */
    method Batch(len: nat) returns (r: Req)
      requires Valid() && 0 < len == sen - dun
      ensures r.eve == dun + 1 && |r.recs| == len && r.ret == None
      ensures forall i | 0 <= i < len :: r.recs[i] == Serialize(planned[dun + i])
    {
      hide Serialize;
      assert 1 + dun == queue[0].eve;
      assert sen == queue[|queue| - 1].eve;
      var recs := [];
      for i := 0 to len
        invariant |recs| == i && forall j | 0 <= j < i :: recs[j] == Serialize(planned[dun + j])
      {
        assert queue[0].eve + i == queue[i].eve;
        recs := recs + [Serialize(queue[i])];
      }
      r := Req(queue[0].eve, recs, None);
    }

    /** The other thread: write the batch in one transaction that never overwrites. The
        transaction may fail to begin or to commit; a commit reported failed may still have taken
        effect. */
    method Work(begun: bool, committed: bool, landed: bool)
      requires Valid() && req.Some? && req.value.ret == None
      modifies this`req, this`store, this`kept
      ensures Valid() && Onward() && req.Some? && req.value.ret.Some? && req.value == old(req).value.(ret := req.value.ret)
      ensures
        var r := old(req).value;
        var fits := Free(old(store), r.eve, |r.recs|);
        && (req.value.ret.value <==> begun && fits && committed)
        && (if begun && fits && (committed || landed)
            then Batched(old(store), store, r.eve, r.recs) else store == old(store))
      ensures StuckStays()
      ensures Stuck() <==> old(Stuck()) || (begun && landed && !committed && Free(old(store), old(req).value.eve, |old(req).value.recs|))
    {
      hide Serialize, Gapless, Free;
      var r := req.value;
      if !begun {
        req := Some(r.(ret := Some(false)));
        return;
      }
      var ok, txn := Transact(r);
      if !ok {
        req := Some(r.(ret := Some(false)));
        return;
      }
      req := Some(r.(ret := Some(committed)));
      if committed || landed {
        store := txn;
        kept := dun + |r.recs|;
      }
    }

    /** The transaction: all the records, or none if one would overwrite another. */
    method Transact(r: Req) returns (ok: bool, txn: map<nat, seq<nat>>)
      requires Valid() && InFlight(r)
      ensures ok <==> Free(store, r.eve, |r.recs|)
      ensures kept > dun ==> !ok
      ensures ok ==> kept == dun && Gapless(txn, planned, dun + |r.recs|) && Batched(store, txn, r.eve, r.recs)
    {
      hide Serialize, Gapless, Free;
      ok, txn := PutAll(store, r.eve, r.recs);
      if ok {
        FreeAll(store, r.eve, |r.recs|);
        Landed(store, txn, planned, dun, kept, r.recs);
      }
    }

    /** Put every record under its number, refusing to overwrite. */
    static method PutAll(store: map<nat, seq<nat>>, eve: nat, recs: seq<seq<nat>>) returns (ok: bool,
            txn: map<nat, seq<nat>>)
      ensures ok <==> Free(store, eve, |recs|)
      ensures ok ==> forall k :: k in txn <==> k in store || eve <= k < eve + |recs|
      ensures ok ==> (forall k | k in store :: txn[k] == store[k]) && forall k | eve <= k < eve + |recs| :: txn[k] == recs[k - eve]
    {
      txn := store;
      for i := 0 to |recs|
        invariant forall k :: k in txn <==> k in store || eve <= k < eve + i
        invariant forall k | k in store :: txn[k] == store[k]
        invariant forall k | eve <= k < eve + i :: k !in store && txn[k] == recs[k - eve]
      {
        if eve + i in txn {
          assert eve + i in store;
          return false, txn;
        }
        txn := txn[eve + i := recs[i]];
      }
      ok := true;
    }

    /** Back on the main thread: finish the write, or abandon it when shutting down. Only work that has
        not been started can be cancelled. */
    method After(cancelled: bool)
      requires Valid() && req.Some? && (cancelled <==> req.value.ret == None)
      modifies this
      ensures Valid() && Onward() && planned == old(planned) && store == old(store)
      ensures StuckStays() && (Stuck() <==> old(Stuck()))
      ensures cancelled ==> ted && req == None && dun == old(dun)
      ensures
        !cancelled ==>
          var r := old(req).value;
          var good := r.ret.value;
          && dun == (if good then old(dun) + |r.recs| else old(dun))
          && calls == old(calls) + [if good then WriteDone(dun) else WriteBail(dun + |r.recs|)]
          && (if dun < sen then ted && Takes(req) else !ted && req == None)
    {
      var r := req.value;
      req := None;
      if cancelled {
        return;
      }
      ted := false;
      CommitDone(r);
    }

    /** A write is complete: acknowledge and forget its events, or keep them; then go on with
        whatever is queued. A failed batch is still at the front of the queue. */
    method CommitDone(r: Req)
      requires Valid() && !ted && InFlight(r) && r.ret.Some?
      modifies this
      ensures Valid() && Onward() && planned == old(planned) && store == old(store)
      ensures
        var good := r.ret.value;
        && dun == (if good then old(dun) + |r.recs| else old(dun))
        && calls == old(calls) + [if good then WriteDone(dun) else WriteBail(dun + |r.recs|)]
        && (if dun < sen then ted && Takes(req) else !ted && req == None)
        && kept == old(kept) && (Stuck() <==> kept > old(dun) && !good)
    {
      hide Serialize;
      var last := r.eve + (|r.recs| - 1);
      if !r.ret.value {
        calls := calls + [WriteBail(last)];
      } else {
        dun := last;
        calls := calls + [WriteDone(dun)];
      }
      DropDone(old(dun));
      Commit();
    }

    /** Take the events that are done off the queue. */
    method DropDone(ghost from: nat)
      requires from <= dun <= sen == |planned| && queue == planned[from..] && forall i | 0 <= i < sen :: planned[i].eve == i + 1
      modifies this`queue
      ensures queue == planned[dun..]
    {
      while queue != [] && queue[0].eve <= dun
        invariant sen - dun <= |queue| <= sen - from && queue == planned[sen - |queue|..]
        decreases |queue|
      {
        assert planned[sen - |queue|..][1..] == planned[sen - |queue| + 1..];
        queue := queue[1..];
      }
      if queue != [] { assert queue[0] == planned[sen - |queue|]; }
    }
  }

  /** One event, a commit that takes effect and is reported failed, and the callback: the event is
      stored and will never be acknowledged. */
  method StuckRun(tac: Fact) returns (d: Disk)
    requires tac.eve == 1
    ensures d.Valid() && d.Stuck() && d.planned == [tac] && d.dun == 0 && 1 in d.store && WriteBail(1) in d.calls
  {
    hide Serialize, Gapless;
    var none: map<nat, seq<nat>> := map[];
    d := new Disk(none, 0, []);
    d.Plan(tac);
    assert d.queue == [tac] && d.dun == 0 && d.store == none;
    assert d.req.value.eve == 1 && |d.req.value.recs| == 1;
    d.Work(true, false, true);
    assert 1 in d.store && !d.req.value.ret.value;
    d.After(false);
  }
}
