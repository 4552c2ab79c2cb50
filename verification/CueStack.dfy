/** Reading nouns with an explicit stack of open cells, tied to the recursive reader
    (pkg/urbit/ur/serial.c:174-324). */
module CueStack {
  import opened Nouns
  import opened JamSpec

  /** A cell being read: its head still to come, or its tail. */
  datatype Open = OpenHead(bits: nat) | OpenTail(hed: Noun, bits: nat, tight: bool)

  function Todo(fs: seq<Open>): nat {
    if fs == [] then 0 else (if fs[|fs| - 1].OpenHead? then 2 else 1) + Todo(fs[..|fs| - 1])
  }

  lemma TodoPush(fs: seq<Open>, f: Open)
    ensures Todo(fs + [f]) == (if f.OpenHead? then 2 else 1) + Todo(fs)
  {
    assert (fs + [f])[..|fs|] == fs;
  }

  /** What the recursive reader makes of everything still open, once `c` has been read. */
  function Finish(b: seq<bool>, fs: seq<Open>, c: Cued): Cued
    requires c.Cued? ==> c.end <= |b|
    decreases Todo(fs)
  {
    if c.Failed? || fs == [] then c
    else
      var rest := fs[..|fs| - 1];
      match fs[|fs| - 1]
      case OpenHead(bits) =>
        TodoPush(rest, OpenTail(c.noun, bits, c.tight));
        Finish(b, rest + [OpenTail(c.noun, bits, c.tight)], Cue(b, c.end, c.done))
      case OpenTail(h, bits, tight) =>
        Finish(b, rest, Cued(Cell(h, c.noun), c.end, c.done[bits := Cell(h, c.noun)], tight && c.tight))
  }

  /** A cell tag opens a frame. */
  lemma OpenCell(b: seq<bool>, fs: seq<Open>, cur: nat, done: map<nat, Noun>)
    requires cur + 2 <= |b| && Next(b[cur..]) == CellToken
    ensures Finish(b, fs, Cue(b, cur, done)) == Finish(b, fs + [OpenHead(cur)], Cue(b, cur + 2, done))
  {
    hide Next, Cue, Finish;
    var c := Cue(b, cur + 2, done);
    CueOpen(b, cur, done);
    FinishFailed(b, fs);
    FinishFailed(b, fs + [OpenHead(cur)]);
    if c.Cued? {
      HeadRead(b, fs, cur, c);
      var d := Cue(b, c.end, c.done);
      FinishFailed(b, fs + [OpenTail(c.noun, cur, c.tight)]);
      if d.Cued? { TailRead(b, fs, c.noun, cur, c.tight, d); }
    }
  }

  lemma FinishFailed(b: seq<bool>, fs: seq<Open>)
    ensures Finish(b, fs, Failed) == Failed
  {
  }

  lemma CueOpen(b: seq<bool>, cur: nat, done: map<nat, Noun>)
    requires cur + 2 <= |b| && Next(b[cur..]) == CellToken
    ensures
      var c := Cue(b, cur + 2, done);
      if c.Failed? then Cue(b, cur, done) == Failed
      else
        var d := Cue(b, c.end, c.done);
        if d.Failed? then Cue(b, cur, done) == Failed
        else Cue(b, cur, done) == Cued(Cell(c.noun, d.noun), d.end, d.done[cur := Cell(c.noun, d.noun)], c.tight && d.tight)
  {
    hide Next;
  }

  /** The head is read: stash it and go on to the tail. */
  lemma HeadRead(b: seq<bool>, fs: seq<Open>, bits: nat, c: Cued)
    requires c.Cued? && c.end <= |b|
    ensures Finish(b, fs + [OpenHead(bits)], c) == Finish(b, fs + [OpenTail(c.noun, bits, c.tight)], Cue(b, c.end, c.done))
  {
    hide Cue;
    assert (fs + [OpenHead(bits)])[..|fs|] == fs;
  }

  /** The tail is read: the cell is complete. */
  lemma TailRead(b: seq<bool>, fs: seq<Open>, h: Noun, bits: nat, tight: bool, c: Cued)
    requires c.Cued? && c.end <= |b|
    ensures Finish(b, fs + [OpenTail(h, bits, tight)], c)
         == Finish(b, fs, Cued(Cell(h, c.noun), c.end, c.done[bits := Cell(h, c.noun)], tight && c.tight))
  {
    hide Cue;
    assert (fs + [OpenTail(h, bits, tight)])[..|fs|] == fs;
  }

  /** Every head read so far was tight. */
  predicate Tight(fs: seq<Open>) { forall i | 0 <= i < |fs| :: fs[i].OpenTail? ==> fs[i].tight }

  /** Reading keeps what was completed before. */
  lemma {:induction false} CueKeeps(b: seq<bool>, cur: nat, done: map<nat, Noun>)
    requires cur <= |b|
    ensures var c := Cue(b, cur, done); c.Cued? ==> done.Keys <= c.done.Keys
    decreases |b| - cur
  {
    hide Next;
    if Next(b[cur..]) == CellToken && Cue(b, cur, done).Cued? {
      CueKeeps(b, cur + 2, done);
      var c := Cue(b, cur + 2, done);
      CueKeeps(b, c.end, c.done);
    }
  }

  /** What has been read on the way is part of the noun read in the end. */
  ghost predicate Leads(fs: seq<Open>, c: Cued, all: Cued) {
    all.Cued? ==>
      && c.Cued? && c.noun in Subnouns(all.noun) && c.done.Keys <= all.done.Keys && (all.tight ==> c.tight && Tight(fs))
      && forall i | 0 <= i < |fs| && fs[i].OpenTail? :: fs[i].hed in Subnouns(all.noun)
  }

  lemma {:induction false} FinishHolds(b: seq<bool>, fs: seq<Open>, c: Cued)
    requires c.Cued? ==> c.end <= |b|
    ensures Leads(fs, c, Finish(b, fs, c))
    decreases Todo(fs)
  {
    hide Cue, Subnouns, Leads;
    if c.Failed? || fs == [] {
      LeadsEnd(fs, c);
    } else {
      var k := |fs| - 1;
      var rest, all := fs[..k], Finish(b, fs, c);
      assert fs == rest + [fs[k]];
      match fs[k]
      case OpenHead(bits) =>
        HeadRead(b, rest, bits, c);
        TodoPush(rest, OpenTail(c.noun, bits, c.tight));
        CueKeeps(b, c.end, c.done);
        FinishHolds(b, rest + [OpenTail(c.noun, bits, c.tight)], Cue(b, c.end, c.done));
        LeadsHead(rest, bits, c, Cue(b, c.end, c.done), all);
      case OpenTail(h, bits, tight) =>
        TailRead(b, rest, h, bits, tight, c);
        FinishHolds(b, rest, Cued(Cell(h, c.noun), c.end, c.done[bits := Cell(h, c.noun)], tight && c.tight));
        LeadsTail(rest, h, bits, tight, c, all);
    }
  }

  lemma LeadsEnd(fs: seq<Open>, c: Cued)
    requires c.Failed? || fs == []
    ensures Leads(fs, c, c)
  {
    if c.Cued? { SeenParts(c.noun); }
  }

  lemma LeadsHead(rest: seq<Open>, bits: nat, c: Cued, d: Cued, all: Cued)
    requires c.Cued? && (d.Cued? ==> c.done.Keys <= d.done.Keys) && Leads(rest + [OpenTail(c.noun, bits, c.tight)], d, all)
    ensures Leads(rest + [OpenHead(bits)], c, all)
  {
    hide Subnouns;
    var fs, fs' := rest + [OpenTail(c.noun, bits, c.tight)], rest + [OpenHead(bits)];
    assert fs[|rest|].OpenTail?;
    assert forall i | 0 <= i < |rest| :: fs[i] == fs'[i];
  }

  lemma LeadsTail(rest: seq<Open>, h: Noun, bits: nat, tight: bool, c: Cued, all: Cued)
    requires c.Cued? && Leads(rest, Cued(Cell(h, c.noun), c.end, c.done[bits := Cell(h, c.noun)], tight && c.tight), all)
    ensures Leads(rest + [OpenTail(h, bits, tight)], c, all)
  {
    if all.Cued? {
      SubnounsInside(Cell(h, c.noun), all.noun);
      SeenParts(Cell(h, c.noun));
      SeenParts(h);
      SeenParts(c.noun);
    }
    hide Subnouns;
    var fs := rest + [OpenTail(h, bits, tight)];
    assert forall i | 0 <= i < |rest| :: fs[i] == rest[i];
  }
}
