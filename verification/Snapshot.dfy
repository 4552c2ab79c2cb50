/** Paginated snapshots of memory (pkg/urbit/noun/events.c): changed pages go to disk as a patch,
    which is applied to two segment files and then removed; a crash at any moment is repaired on
    the next start. */
module Snapshot {
  import opened Nouns

  /** A page, as the number its words make. */
  type Page = nat

  /** What an unwritten page of a file reads as. */
  const HOLE: Page := 0

  const VERSION: nat := 1

  datatype Line = Line(pag: nat, mug: nat)

  datatype Control = Control(ver: nat, nor: nat, sou: nat, lines: seq<Line>)

  /** The control file: absent, or present with its contents if they are whole. */
  datatype Ctl = NoCtl | Ctl(con: Option<Control>)

  /** The four files. The south segment runs from the top of memory down. */
  datatype Files = Files(north: seq<Page>, south: seq<Page>, ctl: Ctl, mem: Option<seq<Page>>)

  datatype Images = Images(north: seq<Page>, south: seq<Page>)

  function Segments(f: Files): Images { Images(f.north, f.south) }

  // ---- patches ----

  predicate Verified(mug: Page -> nat, con: Control, mem: seq<Page>) {
    con.ver == VERSION && |con.lines| <= |mem| && forall i | 0 <= i < |con.lines| :: mug(mem[i]) == con.lines[i].mug
  }

  function Resize(img: seq<Page>, n: nat): seq<Page> { if |img| > n then img[..n] else img }

  function Holes(n: nat): (s: seq<Page>)
    ensures |s| == n
  {
    seq(n, i => HOLE)
  }

  /** Write one page of a file, which grows as needed. */
  function WritePage(img: seq<Page>, off: nat, page: Page): (r: seq<Page>)
    ensures |r| == if off < |img| then |img| else off + 1
    ensures r[off] == page && forall i | 0 <= i < |img| && i != off :: r[i] == img[i]
  {
    if off < |img| then img[off := page] else img + Holes(off - |img|) + [page]
  }

  /** The offset of a page in the south segment. */
  function Off(pages: nat, pag: nat): nat { if pag < pages then pages - (pag + 1) else 0 }

  /** Apply the first `k` lines of a patch. */
  function ApplyLines(pages: nat, img: Images, con: Control, mem: seq<Page>, k: nat): Images
    requires k <= |con.lines| <= |mem|
  {
    if k == 0 then img
    else
      var was := ApplyLines(pages, img, con, mem, k - 1);
      var pag := con.lines[k - 1].pag;
      if pag < con.nor then was.(north := WritePage(was.north, pag, mem[k - 1]))
      else was.(south := WritePage(was.south, Off(pages, pag), mem[k - 1]))
  }

  function ApplyAll(pages: nat, img: Images, con: Control, mem: seq<Page>): Images
    requires |con.lines| <= |mem|
  {
    ApplyLines(pages, Images(Resize(img.north, con.nor), Resize(img.south, con.sou)), con, mem, |con.lines|)
  }

  /** The patch a start finds: whole, and verified. */
  function OpenPatch(mug: Page -> nat, f: Files): Option<Control> {
    if f.ctl.Ctl? && f.ctl.con.Some? && f.mem.Some? && Verified(mug, f.ctl.con.value, f.mem.value) then f.ctl.con else None
  }

  /** The segments after a start. */
  function Recovered(mug: Page -> nat, pages: nat, f: Files): Images {
    match OpenPatch(mug, f)
    case None => Segments(f)
    case Some(con) => ApplyAll(pages, Segments(f), con, f.mem.value)
  }

  /** Verification is exact: pages with one mug are equal. */
  ghost predicate Exact(mug: Page -> nat) { forall p: Page, q: Page :: mug(p) == mug(q) ==> p == q }

  // ---- what a crash leaves ----

  /** A file of which some writes since the last sync are lost: every page is as synced or as
      written, and truncation or growth may be lost in part. */
  ghost predicate MayBe(safe: seq<Page>, now: seq<Page>, e: seq<Page>) {
    if safe == now then e == now
    else
      && (if |safe| < |now| then |safe| <= |e| <= |now| else |now| <= |e| <= |safe|)
      && forall i | 0 <= i < |e| :: (i < |safe| && e[i] == safe[i]) || (i < |now| && e[i] == now[i]) || (i >= |safe| && e[i] == HOLE)
  }

  /** The files as last synced, and as the process sees them. A control file is written in one
      piece; the contents of unsynced patch memory may be anything; removals may be lost. */
  datatype Moment = Moment(safe: Files, now: Files)

  ghost predicate CrashTo(t: Moment, e: Files) {
    && MayBe(t.safe.north, t.now.north, e.north) && MayBe(t.safe.south, t.now.south, e.south)
    && (e.ctl == t.safe.ctl || e.ctl == t.now.ctl)
    && (e.mem == t.safe.mem || e.mem == t.now.mem || (t.now.mem.Some? && t.safe.mem != t.now.mem && e.mem.Some?))
  }

  // ---- a patch from one pair of segments to another ----

  predicate Touches(con: Control, k: nat, pag: nat)
    requires k <= |con.lines|
  {
    exists j | 0 <= j < k :: con.lines[j].pag == pag
  }

  /** The patch holds the pages of `new_` that differ, or may differ, from `old_`. */
  ghost predicate Patches(pages: nat, con: Control, mem: seq<Page>, new_: Images) {
    && con.ver == VERSION && con.nor == |new_.north| && con.sou == |new_.south| && con.nor + con.sou <= pages
    && |con.lines| == |mem|
    && forall j | 0 <= j < |mem| :: LineOk(pages, con, mem, new_, j)
  }

  ghost predicate LineOk(pages: nat, con: Control, mem: seq<Page>, new_: Images, j: nat)
    requires con.nor == |new_.north| && con.sou == |new_.south| && j < |con.lines| == |mem|
  {
    var pag := con.lines[j].pag;
    if pag < con.nor then mem[j] == new_.north[pag]
    else pages - con.sou <= pag < pages && mem[j] == new_.south[Off(pages, pag)]
  }

  /** Page `i` of a segment is in place unless the patch touches it (as page `pag` of memory). */
  ghost predicate InPlace(con: Control, pag: nat, img: seq<Page>, new_: seq<Page>, i: nat)
    requires i < |new_|
  {
    Touches(con, |con.lines|, pag) || (i < |img| && img[i] == new_[i])
  }

  ghost predicate SouthInPlace(pages: nat, con: Control, img: seq<Page>, new_: seq<Page>, i: nat)
    requires i < |new_| <= pages
  {
    InPlace(con, pages - 1 - i, img, new_, i)
  }

  /** The pages that the patch does not touch are in place. */
  ghost predicate Intact(pages: nat, con: Control, img: Images, new_: Images)
    requires con.nor == |new_.north| && con.sou == |new_.south| && con.nor + con.sou <= pages
  {
    && (forall i | 0 <= i < con.nor :: InPlace(con, i, img.north, new_.north, i))
    && (forall i | 0 <= i < con.sou :: SouthInPlace(pages, con, img.south, new_.south, i))
  }

  lemma TouchesStep(con: Control, k: nat, pag: nat)
    requires k < |con.lines|
    ensures Touches(con, k + 1, pag) <==> Touches(con, k, pag) || con.lines[k].pag == pag
  {
  }

  /** Part way through, a page touched so far is in place and another is as it was. */
  ghost predicate StepAt(con: Control, k: nat, pag: nat, img: seq<Page>, got: seq<Page>, new_: seq<Page>, i: nat)
    requires i < |new_| && k <= |con.lines|
  {
    if Touches(con, k, pag) then i < |got| && got[i] == new_[i] else i < |img| ==> i < |got| && got[i] == img[i]
  }

  ghost predicate SouthStepAt(pages: nat, con: Control, k: nat, img: seq<Page>, got: seq<Page>, new_: seq<Page>, i: nat)
    requires i < |new_| <= pages && k <= |con.lines|
  {
    StepAt(con, k, pages - 1 - i, img, got, new_, i)
  }

  ghost predicate Applied(pages: nat, con: Control, k: nat, img: Images, got: Images, new_: Images)
    requires con.nor == |new_.north| && con.sou == |new_.south| && con.nor + con.sou <= pages && k <= |con.lines|
  {
    && |got.north| <= con.nor && |got.south| <= con.sou
    && (forall i | 0 <= i < con.nor :: StepAt(con, k, i, img.north, got.north, new_.north, i))
    && (forall i | 0 <= i < con.sou :: SouthStepAt(pages, con, k, img.south, got.south, new_.south, i))
  }

  lemma {:induction false} ApplySteps(pages: nat, img: Images, con: Control, mem: seq<Page>, new_: Images, k: nat)
    requires Patches(pages, con, mem, new_) && k <= |con.lines| && |img.north| <= con.nor && |img.south| <= con.sou
    ensures Applied(pages, con, k, img, ApplyLines(pages, img, con, mem, k), new_)
  {
    hide LineOk, WritePage;
    if k > 0 {
      ApplySteps(pages, img, con, mem, new_, k - 1);
      ApplyOne(pages, img, con, mem, new_, k - 1, ApplyLines(pages, img, con, mem, k - 1));
    } else {
      forall i | 0 <= i < con.nor ensures StepAt(con, 0, i, img.north, img.north, new_.north, i) {}
      forall i | 0 <= i < con.sou ensures SouthStepAt(pages, con, 0, img.south, img.south, new_.south, i) {}
    }
  }

  lemma ApplyOne(pages: nat, img: Images, con: Control, mem: seq<Page>, new_: Images, k: nat, was: Images)
    requires Patches(pages, con, mem, new_) && k < |con.lines| && Applied(pages, con, k, img, was, new_)
    ensures
      var pag := con.lines[k].pag;
      var got := if pag < con.nor then was.(north := WritePage(was.north, pag, mem[k]))
                 else was.(south := WritePage(was.south, Off(pages, pag), mem[k]));
      Applied(pages, con, k + 1, img, got, new_)
  {
    hide Touches, WritePage;
    assert LineOk(pages, con, mem, new_, k);
    var pag, k1 := con.lines[k].pag, k + 1;
    var got := if pag < con.nor then was.(north := WritePage(was.north, pag, mem[k]))
               else was.(south := WritePage(was.south, Off(pages, pag), mem[k]));
    forall i | 0 <= i < con.nor ensures StepAt(con, k1, i, img.north, got.north, new_.north, i) {
      TouchesStep(con, k, i);
      assert StepAt(con, k, i, img.north, was.north, new_.north, i);
    }
    forall i | 0 <= i < con.sou ensures SouthStepAt(pages, con, k1, img.south, got.south, new_.south, i) {
      TouchesStep(con, k, pages - 1 - i);
      assert SouthStepAt(pages, con, k, img.south, was.south, new_.south, i);
    }
  }

  /** Applying a patch to segments whose other pages are in place gives the new segments, whatever
      else was in them: a patch may be applied again after being applied in part. */
  lemma ApplyGives(pages: nat, img: Images, con: Control, mem: seq<Page>, new_: Images)
    requires Patches(pages, con, mem, new_) && Intact(pages, con, img, new_)
    ensures ApplyAll(pages, img, con, mem) == new_
  {
    hide Touches, LineOk, ApplyLines;
    var start := Images(Resize(img.north, con.nor), Resize(img.south, con.sou));
    ApplySteps(pages, start, con, mem, new_, |con.lines|);
    var got := ApplyAll(pages, img, con, mem);
    forall i | 0 <= i < con.nor ensures There(got.north, new_.north, i) {
      assert InPlace(con, i, img.north, new_.north, i);
      assert StepAt(con, |con.lines|, i, start.north, got.north, new_.north, i);
    }
    forall i | 0 <= i < con.sou ensures There(got.south, new_.south, i) {
      assert SouthInPlace(pages, con, img.south, new_.south, i);
      assert SouthStepAt(pages, con, |con.lines|, start.south, got.south, new_.south, i);
    }
    AllThere(got.north, new_.north);
    AllThere(got.south, new_.south);
  }

  predicate There(got: seq<Page>, new_: seq<Page>, i: nat)
    requires i < |new_|
  {
    i < |got| && got[i] == new_[i]
  }

  lemma AllThere(got: seq<Page>, new_: seq<Page>)
    requires |got| <= |new_| && forall i | 0 <= i < |new_| :: There(got, new_, i)
    ensures got == new_
  {
    if |new_| > 0 { assert There(got, new_, |new_| - 1); }
    forall i | 0 <= i < |got| ensures got[i] == new_[i] { assert There(got, new_, i); }
  }

  /** New segments survive being patched to themselves. */
  lemma IntactSelf(pages: nat, con: Control, new_: Images)
    requires con.nor == |new_.north| && con.sou == |new_.south| && con.nor + con.sou <= pages
    ensures Intact(pages, con, new_, new_)
  {
  }

  /** A crash keeps pages that are in place both as synced and as written. */
  lemma IntactCrash(pages: nat, con: Control, t: Moment, e: Files, new_: Images)
    requires con.nor == |new_.north| && con.sou == |new_.south| && con.nor + con.sou <= pages
    requires CrashTo(t, e) && Intact(pages, con, Segments(t.safe), new_) && Intact(pages, con, Segments(t.now), new_)
    ensures Intact(pages, con, Segments(e), new_)
  {
    hide Touches;
    forall i | 0 <= i < con.nor ensures InPlace(con, i, e.north, new_.north, i) {
      assert InPlace(con, i, t.safe.north, new_.north, i) && InPlace(con, i, t.now.north, new_.north, i);
    }
    forall i | 0 <= i < con.sou ensures SouthInPlace(pages, con, e.south, new_.south, i) {
      assert SouthInPlace(pages, con, t.safe.south, new_.south, i) && SouthInPlace(pages, con, t.now.south, new_.south, i);
    }
  }

  // ---- what a start can repair ----

  /** A start leaves `target`: there is no patch and the segments are `target` already, or there is
      a patch to `target` and the pages it does not touch are in place. */
  ghost predicate Restorable(mug: Page -> nat, pages: nat, e: Files, target: Images) {
    match OpenPatch(mug, e)
    case None => Segments(e) == target
    case Some(con) =>
      Patches(pages, con, e.mem.value[..|con.lines|], target) && Intact(pages, con, Segments(e), target)
  }

  lemma {:induction false} FirstPages(pages: nat, img: Images, con: Control, mem: seq<Page>, k: nat)
    requires k <= |con.lines| <= |mem|
    ensures ApplyLines(pages, img, con, mem, k) == ApplyLines(pages, img, con, mem[..|con.lines|], k)
  {
    if k > 0 { FirstPages(pages, img, con, mem, k - 1); }
  }

  lemma RestorableRecovers(mug: Page -> nat, pages: nat, e: Files, target: Images)
    requires Restorable(mug, pages, e, target)
    ensures Recovered(mug, pages, e) == target
  {
    hide Patches, Intact;
    if OpenPatch(mug, e).Some? {
      var con := OpenPatch(mug, e).value;
      ApplyGives(pages, Segments(e), con, e.mem.value[..|con.lines|], target);
      FirstPages(pages, Images(Resize(e.north, con.nor), Resize(e.south, con.sou)), con, e.mem.value, |con.lines|);
    }
  }

  /** Whatever a crash at this moment leaves, a start restores one of two segment pairs. */
  ghost predicate CrashSafe(mug: Page -> nat, pages: nat, t: Moment, old_: Images, new_: Images) {
    forall e | CrashTo(t, e) :: Restorable(mug, pages, e, old_) || Restorable(mug, pages, e, new_)
  }

  /** A control block and the pages it describes. */
  ghost predicate Describes(mug: Page -> nat, con: Control, mem: seq<Page>) {
    |con.lines| == |mem| && forall i | 0 <= i < |mem| :: con.lines[i].mug == mug(mem[i])
  }

  /** The patch memory is exactly what the control block describes, once it is verified. */
  lemma ExactPages(mug: Page -> nat, con: Control, mem: seq<Page>, got: seq<Page>)
    requires Exact(mug) && Describes(mug, con, mem) && Verified(mug, con, got)
    ensures got[..|con.lines|] == mem
  {
    forall i | 0 <= i < |mem| ensures got[i] == mem[i] { assert mug(got[i]) == mug(mem[i]); }
  }

  /** While the patch is being written, the segments are untouched: a start finds no patch, or the
      whole of it. */
  lemma SafeComposing(mug: Page -> nat, pages: nat, t: Moment, con: Control, mem: seq<Page>, old_: Images, new_: Images)
    requires Exact(mug) && Segments(t.safe) == Segments(t.now) == old_
    requires t.safe.ctl in {Ctl(None), Ctl(Some(con))} && t.now.ctl in {Ctl(None), Ctl(Some(con))}
    requires Ctl(Some(con)) in {t.safe.ctl, t.now.ctl} ==>
               Describes(mug, con, mem) && Patches(pages, con, mem, new_) && Intact(pages, con, old_, new_)
    ensures CrashSafe(mug, pages, t, old_, new_)
  {
    hide Patches, Intact, Describes, Exact, Verified;
    forall e | CrashTo(t, e) ensures Restorable(mug, pages, e, old_) || Restorable(mug, pages, e, new_) {
      assert Segments(e) == old_;
      if OpenPatch(mug, e).Some? { ExactPages(mug, con, mem, e.mem.value); }
    }
  }

  /** A new control file hides any removed patch that a crash might bring back. */
  lemma SafeCreating(mug: Page -> nat, pages: nat, t: Moment, old_: Images, new_: Images)
    requires Segments(t.safe) == Segments(t.now) == old_ && t.safe.ctl == t.now.ctl == Ctl(None)
    ensures CrashSafe(mug, pages, t, old_, new_)
  {
    forall e | CrashTo(t, e) ensures Restorable(mug, pages, e, old_) { assert Segments(e) == old_; }
  }

  // ---- the process ----

  /** Memory within the watermarks. */
  function InUse(loom: seq<Page>, n: nat, s: nat): Images
    requires n + s <= |loom|
  {
    Images(loom[..n], seq(s, i requires 0 <= i < s => loom[|loom| - 1 - i]))
  }

  /** The pages that a save looks at: the north ones upward, then the south ones downward. */
  function Visit(pages: nat, n: nat, i: nat): nat
    requires n <= pages && i < pages
  {
    if i < n then i else pages - 1 - (i - n)
  }

  /** Those of the first `k` that are dirty. */
  function Picked(pages: nat, n: nat, dirty: seq<bool>, k: nat): (ps: seq<nat>)
    requires n <= pages == |dirty| && k <= pages
    ensures forall j | 0 <= j < |ps| :: ps[j] < pages && dirty[ps[j]]
  {
    if k == 0 then []
    else
      var p := Visit(pages, n, k - 1);
      Picked(pages, n, dirty, k - 1) + if dirty[p] then [p] else []
  }

  function LinesOf(mug: Page -> nat, loom: seq<Page>, ps: seq<nat>): seq<Line>
    requires forall j | 0 <= j < |ps| :: ps[j] < |loom|
  {
    seq(|ps|, j requires 0 <= j < |ps| => Line(ps[j], mug(loom[ps[j]])))
  }

  function PagesOf(loom: seq<Page>, ps: seq<nat>): seq<Page>
    requires forall j | 0 <= j < |ps| :: ps[j] < |loom|
  {
    seq(|ps|, j requires 0 <= j < |ps| => loom[ps[j]])
  }

  function ControlOf(mug: Page -> nat, loom: seq<Page>, dirty: seq<bool>, n: nat, s: nat): Control
    requires n + s <= |loom| == |dirty|
  {
    Control(VERSION, n, s, LinesOf(mug, loom, Picked(|loom|, n, dirty, n + s)))
  }

  function MemOf(loom: seq<Page>, dirty: seq<bool>, n: nat, s: nat): seq<Page>
    requires n + s <= |loom| == |dirty|
  {
    PagesOf(loom, Picked(|loom|, n, dirty, n + s))
  }

  /** Every clean page within the watermarks has an equal copy in its segment. */
  ghost predicate Ready(loom: seq<Page>, dirty: seq<bool>, img: Images, n: nat, s: nat)
    requires n + s <= |loom| == |dirty|
  {
    && (forall i | 0 <= i < n :: dirty[i] || There(img.north, loom, i))
    && (forall i | 0 <= i < s :: SouthBacked(loom, dirty, img, i))
  }

  ghost predicate SouthBacked(loom: seq<Page>, dirty: seq<bool>, img: Images, i: nat)
    requires i < |loom| == |dirty|
  {
    dirty[|loom| - 1 - i] || (i < |img.south| && img.south[i] == loom[|loom| - 1 - i])
  }

  lemma {:induction false} PickedWithin(pages: nat, n: nat, s: nat, dirty: seq<bool>, k: nat, j: nat)
    requires n + s <= pages == |dirty| && k <= n + s && j < |Picked(pages, n, dirty, k)|
    ensures var p := Picked(pages, n, dirty, k)[j]; p < n || p >= pages - s
  {
    if j >= |Picked(pages, n, dirty, k - 1)| {} else { PickedWithin(pages, n, s, dirty, k - 1, j); }
  }

  lemma {:induction false} PickedHas(pages: nat, n: nat, dirty: seq<bool>, k: nat, i: nat) returns (j: nat)
    requires n <= pages == |dirty| && i < k <= pages && dirty[Visit(pages, n, i)]
    ensures j < |Picked(pages, n, dirty, k)| && Picked(pages, n, dirty, k)[j] == Visit(pages, n, i)
  {
    if i == k - 1 { j := |Picked(pages, n, dirty, k - 1)|; } else { j := PickedHas(pages, n, dirty, k - 1, i); }
  }

  /** The patch that a save composes describes its pages, which are those of the memory in use. */
  lemma ComposedPatches(mug: Page -> nat, loom: seq<Page>, dirty: seq<bool>, n: nat, s: nat)
    requires n + s <= |loom| == |dirty|
    ensures
      var con, mem := ControlOf(mug, loom, dirty, n, s), MemOf(loom, dirty, n, s);
      && Describes(mug, con, mem) && Patches(|loom|, con, mem, InUse(loom, n, s)) && con.nor == n && con.sou == s
  {
    var con, mem, new_ := ControlOf(mug, loom, dirty, n, s), MemOf(loom, dirty, n, s), InUse(loom, n, s);
    forall j | 0 <= j < |mem| ensures LineOk(|loom|, con, mem, new_, j) { PickedWithin(|loom|, n, s, dirty, n + s, j); }
  }

  /** It leads to the memory in use, if its other pages are on disk. */
  lemma Composed(mug: Page -> nat, loom: seq<Page>, dirty: seq<bool>, img: Images, n: nat, s: nat)
    requires n + s <= |loom| == |dirty| && Ready(loom, dirty, img, n, s)
    ensures
      var con, mem := ControlOf(mug, loom, dirty, n, s), MemOf(loom, dirty, n, s);
      Describes(mug, con, mem) && Patches(|loom|, con, mem, InUse(loom, n, s)) && Intact(|loom|, con, img, InUse(loom, n, s))
  {
    var pages := |loom|;
    var con, mem, new_ := ControlOf(mug, loom, dirty, n, s), MemOf(loom, dirty, n, s), InUse(loom, n, s);
    ComposedPatches(mug, loom, dirty, n, s);
    forall i | 0 <= i < n ensures InPlace(con, i, img.north, new_.north, i) {
      if dirty[i] {
        var j := PickedHas(pages, n, dirty, n + s, i);
        assert con.lines[j].pag == i;
      } else {
        assert There(img.north, loom, i);
      }
    }
    forall i | 0 <= i < s ensures SouthInPlace(pages, con, img.south, new_.south, i) {
      assert SouthBacked(loom, dirty, img, i);
      if dirty[pages - 1 - i] {
        var j := PickedHas(pages, n, dirty, n + s, n + i);
        assert con.lines[j].pag == pages - 1 - i;
      }
    }
  }

  /** A line past page `i` of the north segment makes the file that long. */
  ghost predicate Past(con: Control, k: nat, i: nat)
    requires k <= |con.lines|
  {
    exists j | 0 <= j < k :: i < con.lines[j].pag < con.nor
  }

  ghost predicate SouthPast(pages: nat, con: Control, k: nat, i: nat)
    requires k <= |con.lines|
  {
    exists j | 0 <= j < k :: con.lines[j].pag >= con.nor && Off(pages, con.lines[j].pag) > i
  }

  /** A page past the end of a file that no line touches is a hole, if it is there. */
  ghost predicate HoleAt(touched: bool, past: bool, img: seq<Page>, got: seq<Page>, i: nat) {
    i >= |img| && !touched ==> (i < |got| <==> past) && (past ==> i < |got| && got[i] == HOLE)
  }

  ghost predicate Holed(pages: nat, con: Control, k: nat, img: Images, got: Images)
    requires k <= |con.lines| && con.nor + con.sou <= pages
  {
    && (forall i | 0 <= i < con.nor :: HoleAt(Touches(con, k, i), Past(con, k, i), img.north, got.north, i))
    && (forall i | 0 <= i < con.sou :: HoleAt(Touches(con, k, pages - 1 - i), SouthPast(pages, con, k, i), img.south, got.south, i))
  }

  lemma PastStep(pages: nat, con: Control, k: nat, i: nat)
    requires k < |con.lines|
    ensures Past(con, k + 1, i) <==> Past(con, k, i) || i < con.lines[k].pag < con.nor
    ensures SouthPast(pages, con, k + 1, i) <==> SouthPast(pages, con, k, i) || (con.lines[k].pag >= con.nor && Off(pages, con.lines[k].pag) > i)
  {
  }

  lemma {:induction false} HoleSteps(pages: nat, img: Images, con: Control, mem: seq<Page>, new_: Images, k: nat)
    requires Patches(pages, con, mem, new_) && k <= |con.lines|
    ensures Holed(pages, con, k, img, ApplyLines(pages, img, con, mem, k))
  {
    hide LineOk, WritePage, Touches, Past, SouthPast;
    var got := ApplyLines(pages, img, con, mem, k);
    if k == 0 {
      forall i: nat ensures !Touches(con, 0, i) && !Past(con, 0, i) && !SouthPast(pages, con, 0, i) { NoneTouched(pages, con, i); }
    } else {
      HoleSteps(pages, img, con, mem, new_, k - 1);
      var was := ApplyLines(pages, img, con, mem, k - 1);
      assert LineOk(pages, con, mem, new_, k - 1);
      LineIn(pages, con, mem, new_, k - 1);
      forall i | 0 <= i < con.nor ensures HoleAt(Touches(con, k, i), Past(con, k, i), img.north, got.north, i) {
        PastStep(pages, con, k - 1, i);
        TouchesStep(con, k - 1, i);
        WrittenHole(was.north, con.lines[k - 1].pag, mem[k - 1], i);
      }
      forall i | 0 <= i < con.sou ensures HoleAt(Touches(con, k, pages - 1 - i), SouthPast(pages, con, k, i), img.south, got.south, i) {
        PastStep(pages, con, k - 1, i);
        TouchesStep(con, k - 1, pages - 1 - i);
        WrittenHole(was.south, Off(pages, con.lines[k - 1].pag), mem[k - 1], i);
        assert HoleAt(Touches(con, k - 1, pages - 1 - i), SouthPast(pages, con, k - 1, i), img.south, was.south, i);
      }
    }
  }

  lemma NoneTouched(pages: nat, con: Control, i: nat)
    ensures !Touches(con, 0, i) && !Past(con, 0, i) && !SouthPast(pages, con, 0, i)
  {
  }

  lemma LineIn(pages: nat, con: Control, mem: seq<Page>, new_: Images, j: nat)
    requires con.nor == |new_.north| && con.sou == |new_.south| && j < |con.lines| == |mem| && LineOk(pages, con, mem, new_, j)
    ensures con.lines[j].pag < con.nor || pages - con.sou <= con.lines[j].pag < pages
  {
  }

  lemma WrittenHole(img: seq<Page>, off: nat, page: Page, i: nat)
    ensures
      var r := WritePage(img, off, page);
      && (i < |r| <==> i < |img| || i <= off) && (i < |img| && i != off ==> r[i] == img[i]) && (|img| <= i < off ==> r[i] == HOLE)
  {
  }

  /** A clean page of the memory in use is in its segment, or past its end a hole before a dirty page. */
  ghost predicate Survives(loom: seq<Page>, dirty: seq<bool>, img: seq<Page>, n: nat, i: nat)
    requires i < n <= |loom| == |dirty|
  {
    dirty[i] || There(img, loom, i) || (i >= |img| && loom[i] == HOLE && exists j | i < j < n :: dirty[j])
  }

  predicate SouthDirty(dirty: seq<bool>, i: nat) { i < |dirty| && dirty[|dirty| - 1 - i] }

  ghost predicate SouthSurvives(loom: seq<Page>, dirty: seq<bool>, img: seq<Page>, s: nat, i: nat)
    requires i < s <= |loom| == |dirty|
  {
    || SouthDirty(dirty, i) || (i < |img| && img[i] == loom[|loom| - 1 - i])
    || (i >= |img| && loom[|loom| - 1 - i] == HOLE && exists j | i < j < s :: SouthDirty(dirty, j))
  }

  /** The pages that a save touches are the dirty ones in use. */
  lemma TouchedIff(mug: Page -> nat, loom: seq<Page>, dirty: seq<bool>, n: nat, s: nat, p: nat)
    requires n + s <= |loom| == |dirty| && p < |loom| && (p < n || p >= |loom| - s)
    ensures var con := ControlOf(mug, loom, dirty, n, s); Touches(con, |con.lines|, p) <==> dirty[p]
  {
    var con, pages := ControlOf(mug, loom, dirty, n, s), |loom|;
    var i := if p < n then p else n + (pages - 1 - p);
    assert Visit(pages, n, i) == p;
    if dirty[p] {
      var j := PickedHas(pages, n, dirty, n + s, i);
      assert con.lines[j].pag == p;
    }
  }

  lemma PastIff(mug: Page -> nat, loom: seq<Page>, dirty: seq<bool>, n: nat, s: nat, i: nat)
    requires n + s <= |loom| == |dirty|
    ensures var con := ControlOf(mug, loom, dirty, n, s); Past(con, |con.lines|, i) <==> exists j | i < j < n :: dirty[j]
  {
    var con, pages := ControlOf(mug, loom, dirty, n, s), |loom|;
    var ps := Picked(pages, n, dirty, n + s);
    hide Picked;
    if Past(con, |con.lines|, i) {
      var j :| 0 <= j < |con.lines| && i < con.lines[j].pag < con.nor;
      assert dirty[ps[j]];
    }
    if j :| i < j < n && dirty[j] {
      var k := PickedHas(pages, n, dirty, n + s, j);
      assert con.lines[k].pag == j;
    }
  }

  lemma SouthPastIff(mug: Page -> nat, loom: seq<Page>, dirty: seq<bool>, n: nat, s: nat, i: nat)
    requires n + s <= |loom| == |dirty|
    ensures
      var con := ControlOf(mug, loom, dirty, n, s);
      SouthPast(|loom|, con, |con.lines|, i) <==> exists j | i < j < s :: SouthDirty(dirty, j)
  {
    var con, pages := ControlOf(mug, loom, dirty, n, s), |loom|;
    var ps := Picked(pages, n, dirty, n + s);
    hide Picked;
    if SouthPast(pages, con, |con.lines|, i) {
      var j :| 0 <= j < |con.lines| && con.lines[j].pag >= con.nor && Off(pages, con.lines[j].pag) > i;
      PickedWithin(pages, n, s, dirty, n + s, j);
      assert SouthDirty(dirty, Off(pages, ps[j]));
    }
    if j :| i < j < s && SouthDirty(dirty, j) {
      var k := PickedHas(pages, n, dirty, n + s, n + j);
      assert con.lines[k].pag == pages - 1 - j;
    }
  }

  /** What a save writes is the memory in use if and only if every page of it survives: more than what
      makes it safe (`Ready`) only by holes at the end of a file. */
  lemma SavedExactly(mug: Page -> nat, loom: seq<Page>, dirty: seq<bool>, img: Images, n: nat, s: nat)
    requires n + s <= |loom| == |dirty|
    ensures
      ApplyAll(|loom|, img, ControlOf(mug, loom, dirty, n, s), MemOf(loom, dirty, n, s)) == InUse(loom, n, s) <==>
      (forall i | 0 <= i < n :: Survives(loom, dirty, img.north, n, i)) && (forall i | 0 <= i < s :: SouthSurvives(loom, dirty, img.south, s, i))
  {
    hide Touches, LineOk, ApplyLines, Picked, Past, SouthPast, InUse, ControlOf, MemOf;
    var pages := |loom|;
    var con, mem, new_ := ControlOf(mug, loom, dirty, n, s), MemOf(loom, dirty, n, s), InUse(loom, n, s);
    var start := Images(Resize(img.north, con.nor), Resize(img.south, con.sou));
    ComposedPatches(mug, loom, dirty, n, s);
    PatchesSize(pages, con, mem, new_);
    var got := ApplyAll(pages, img, con, mem);
    ApplySteps(pages, start, con, mem, new_, |con.lines|);
    HoleSteps(pages, start, con, mem, new_, |con.lines|);
    UsedAt(loom, n, s);
    forall i | 0 <= i < n ensures There(got.north, new_.north, i) <==> Survives(loom, dirty, img.north, n, i) {
      TouchedIff(mug, loom, dirty, n, s, i);
      PastIff(mug, loom, dirty, n, s, i);
      assert StepAt(con, |con.lines|, i, start.north, got.north, new_.north, i);
      assert HoleAt(Touches(con, |con.lines|, i), Past(con, |con.lines|, i), start.north, got.north, i);
    }
    forall i | 0 <= i < s ensures There(got.south, new_.south, i) <==> SouthSurvives(loom, dirty, img.south, s, i) {
      TouchedIff(mug, loom, dirty, n, s, pages - 1 - i);
      SouthPastIff(mug, loom, dirty, n, s, i);
      assert SouthStepAt(pages, con, |con.lines|, start.south, got.south, new_.south, i);
      assert HoleAt(Touches(con, |con.lines|, pages - 1 - i), SouthPast(pages, con, |con.lines|, i), start.south, got.south, i);
    }
    if (forall i | 0 <= i < n :: There(got.north, new_.north, i)) && (forall i | 0 <= i < s :: There(got.south, new_.south, i)) {
      AllThere(got.north, new_.north);
      AllThere(got.south, new_.south);
    }
  }

  class Pool {
    const mug: Page -> nat
    const pages: nat
    var loom: seq<Page>
    var dirty: seq<bool>
    var f: Files
    ghost var safe: Files
    ghost var log: seq<Moment>

    ghost predicate Sized()
      reads this
    {
      |loom| == |dirty| == pages
    }

    /** Between saves: everything is on disk, no patch is seen, and a crash changes nothing. A
        memory file may have been left behind. */
    ghost predicate Quiet(cur: Images)
      reads this
    {
      && Sized() && Segments(f) == Segments(safe) == cur && f.ctl == NoCtl
      && CrashSafe(mug, pages, Moment(safe, f), cur, cur)
    }

    /** The files have changed only by steps that were noted, the last of which led here; and at
        every step since `at` a crash could be repaired. */
    ghost predicate SafeSince(at: nat, old_: Images, new_: Images)
      reads this`f, this`safe, this`log
    {
      && at < |log| && log[|log| - 1] == Moment(safe, f)
      && forall i | at <= i < |log| :: CrashSafe(mug, pages, log[i], old_, new_)
    }

    /** A new process on a disk that holds `files`. */
    constructor (mug: Page -> nat, pages: nat, files: Files)
      ensures this.mug == mug && this.pages == pages && f == safe == files && Sized() && log == [Moment(files, files)]
    {
      this.mug, this.pages, f, safe := mug, pages, files, files;
      loom, dirty := seq(pages, i => HOLE), seq(pages, i => true);
      log := [Moment(files, files)];
    }

    /** A write to a page: the fault handler marks it dirty. */
    method Write(pag: nat, page: Page)
      requires Sized() && pag < pages
      modifies this`loom, this`dirty
      ensures Sized() && loom == old(loom)[pag := page] && dirty == old(dirty)[pag := true]
    {
      if !dirty[pag] { dirty := dirty[pag := true]; }
      loom := loom[pag := page];
    }

    /** One step: a system call that changes the files, or a sync. */
    method Step(next: Files, ghost synced: Files, ghost at: nat, ghost old_: Images, ghost new_: Images)
      requires SafeSince(at, old_, new_) && CrashSafe(mug, pages, Moment(synced, next), old_, new_)
      modifies this`f, this`safe, this`log
      ensures f == next && safe == synced && log == old(log) + [Moment(synced, next)] && SafeSince(at, old_, new_)
    {
      hide CrashSafe;
      f := next;
      safe := synced;
      log := log + [Moment(safe, f)];
    }

    /** Save a page if it is dirty: its line, its contents, its dirty bit. */
    method SavePage(pag: nat, lines: seq<Line>, ghost ps: seq<nat>, ghost at: nat, ghost cur: Images,
            ghost new_: Images)
      returns (lines': seq<Line>)
      requires Sized() && pag < pages && (forall j | 0 <= j < |ps| :: ps[j] < pages) && SafeSince(at, cur, new_)
      requires lines == LinesOf(mug, loom, ps) && f.mem == Some(PagesOf(loom, ps)) && f.ctl == safe.ctl == Ctl(None)
      requires Segments(safe) == Segments(f) == cur
      modifies this`dirty, this`f, this`safe, this`log
      ensures Sized() && dirty == old(dirty)[pag := false] && SafeSince(at, cur, new_) && safe == old(safe)
      ensures
        var ps' := if old(dirty)[pag] then ps + [pag] else ps;
        lines' == LinesOf(mug, loom, ps') && f == old(f).(mem := Some(PagesOf(loom, ps')))
    {
      hide CrashSafe, CrashTo;
      lines' := lines;
      if dirty[pag] {
        lines' := lines + [Line(pag, mug(loom[pag]))];
        var next := f.(mem := Some(WritePage(f.mem.value, |lines|, loom[pag])));
        assert PagesOf(loom, ps) + Holes(0) == PagesOf(loom, ps);
        assert PagesOf(loom, ps + [pag]) == PagesOf(loom, ps) + [loom[pag]];
        assert LinesOf(mug, loom, ps + [pag]) == lines';
        SafeCreating(mug, pages, Moment(safe, next), cur, new_);
        Step(next, safe, at, cur, new_);
      }
      dirty := dirty[pag := false];
    }

    /** Count the dirty pages within the watermarks. */
    method Count(n: nat, s: nat) returns (count: nat)
      requires Sized() && n + s <= pages
      ensures count == |Picked(pages, n, dirty, n + s)|
    {
      hide Picked;
      count := 0;
      PickNone(pages, n, dirty);
      for i := 0 to n
        invariant count == |Picked(pages, n, dirty, i)|
      {
        PickStep(pages, n, dirty, i);
        count := count + if dirty[i] then 1 else 0;
      }
      for i := 0 to s
        invariant count == |Picked(pages, n, dirty, n + i)|
      {
        PickStep(pages, n, dirty, n + i);
        count := count + if dirty[pages - (i + 1)] then 1 else 0;
      }
    }

    /** What composing has done after `k` visits. */
    ghost predicate Composing(n: nat, s: nat, k: nat, lines: seq<Line>, dirty0: seq<bool>, cur: Images, at: nat)
      requires n + s <= pages == |dirty0| && k <= n + s
      reads this
    {
      && Sized() && f.ctl == safe.ctl == Ctl(None) && Segments(f) == Segments(safe) == cur
      && lines == LinesOf(mug, loom, Picked(pages, n, dirty0, k)) && f.mem == Some(PagesOf(loom, Picked(pages, n, dirty0, k)))
      && SafeSince(at, cur, InUse(loom, n, s))
      && forall j | 0 <= j < pages :: dirty[j] == (dirty0[j] && if k <= n then j >= k else n <= j < pages - (k - n))
    }

    /** Visit one page. */
    method ComposeStep(n: nat, s: nat, k: nat, lines: seq<Line>, ghost dirty0: seq<bool>, ghost cur: Images,
            ghost at: nat) returns (lines': seq<Line>)
      requires n + s <= pages == |dirty0| && k < n + s && Composing(n, s, k, lines, dirty0, cur, at)
      modifies this`dirty, this`f, this`safe, this`log
      ensures Composing(n, s, k + 1, lines', dirty0, cur, at)
    {
      hide CrashSafe, CrashTo, Picked;
      PickStep(pages, n, dirty0, k);
      lines' := SavePage(Visit(pages, n, k), lines, Picked(pages, n, dirty0, k), at, cur, InUse(loom, n, s));
    }

    /** Compose a patch of the dirty pages within the watermarks, unless there are none. It stops the
        process, its control file made, if and only if there are some and a memory file is in the way. */
    method Compose(n: nat, s: nat, ghost cur: Images, ghost at: nat) returns (ok: bool, con: Option<Control>)
      requires Quiet(cur) && n + s <= pages && Ready(loom, dirty, cur, n, s) && Exact(mug) && SafeSince(at, cur, InUse(loom, n, s))
      modifies this`dirty, this`f, this`safe, this`log
      ensures Sized() && Segments(f) == Segments(safe) == cur && SafeSince(at, cur, InUse(loom, n, s))
      ensures
        if old(Picked(pages, n, dirty, n + s)) == [] then ok && con == None && f == old(f) && safe == old(safe) && dirty == old(dirty)
        else if old(f.mem).Some? then !ok && f == old(f).(ctl := Ctl(None)) && safe.ctl == Ctl(None) && dirty == old(dirty)
        else
          && ok && con == Some(old(ControlOf(mug, loom, dirty, n, s)))
          && f.ctl == Ctl(con) && f.mem == Some(old(MemOf(loom, dirty, n, s))) && safe.ctl == Ctl(None)
          && forall i | 0 <= i < pages :: dirty[i] == (old(dirty)[i] && n <= i < pages - s)
    {
      hide CrashSafe, CrashTo, Ready, Patches, Intact, Describes, Exact, Picked;
      ghost var dirty0, new_ := dirty, InUse(loom, n, s);
      var count := Count(n, s);
      con := None;
      if count == 0 { return true, con; }
      ghost var made := safe.(ctl := Ctl(None));
      SafeCreating(mug, pages, Moment(made, f.(ctl := Ctl(None))), cur, new_);
      Step(f.(ctl := Ctl(None)), made, at, cur, new_);
      if f.mem.Some? { return false, con; }
      ghost var both := safe.(mem := Some([]));
      SafeCreating(mug, pages, Moment(both, f.(mem := Some([]))), cur, new_);
      Step(f.(mem := Some([])), both, at, cur, new_);
      var lines := [];
      PickNone(pages, n, dirty0);
      assert PagesOf(loom, []) == [] && LinesOf(mug, loom, []) == [];
      for i := 0 to n
        modifies this`dirty, this`f, this`safe, this`log
        invariant Composing(n, s, i, lines, dirty0, cur, at)
      {
        lines := ComposeStep(n, s, i, lines, dirty0, cur, at);
      }
      for i := 0 to s
        modifies this`dirty, this`f, this`safe, this`log
        invariant Composing(n, s, n + i, lines, dirty0, cur, at)
      {
        lines := ComposeStep(n, s, n + i, lines, dirty0, cur, at);
      }
      con := Some(Control(VERSION, n, s, lines));
      Composed(mug, loom, dirty0, cur, n, s);
      SafeComposing(mug, pages, Moment(safe, f.(ctl := Ctl(con))), con.value, f.mem.value, cur, new_);
      Step(f.(ctl := Ctl(con)), safe, at, cur, new_);
      ok := true;
    }

    /** Check the patch memory against the control block. */
    method Verify(con: Control, mem: seq<Page>) returns (ok: bool)
      ensures ok == Verified(mug, con, mem)
    {
      if con.ver != VERSION || |con.lines| > |mem| { return false; }
      for i := 0 to |con.lines|
        invariant forall j | 0 <= j < i :: mug(mem[j]) == con.lines[j].mug
      {
        if mug(mem[i]) != con.lines[i].mug { return false; }
      }
      ok := true;
    }

    /** A patch to `new_` is on disk, synced, and the segments allow it. */
    ghost predicate Patching(con: Control, mem: seq<Page>, new_: Images)
      reads this
    {
      && f.ctl == safe.ctl == Ctl(Some(con)) && f.mem == safe.mem == Some(mem)
      && Verified(mug, con, mem) && Patches(pages, con, mem[..|con.lines|], new_)
      && Intact(pages, con, Segments(f), new_) && Intact(pages, con, Segments(safe), new_)
    }

    /** Put new contents into the segments, of which the untouched pages stay in place. */
    method Put(next: Files, con: Control, mem: seq<Page>, ghost at: nat, ghost old_: Images, ghost new_: Images)
      requires Patching(con, mem, new_) && SafeSince(at, old_, new_)
      requires next.ctl == f.ctl && next.mem == f.mem && Intact(pages, con, Segments(next), new_)
      modifies this`f, this`safe, this`log
      ensures Patching(con, mem, new_) && SafeSince(at, old_, new_) && f == next && safe == old(safe)
    {
      hide CrashSafe, CrashTo, Patches, Intact, Verified;
      SafeApplied(mug, pages, Moment(safe, next), con, mem, new_);
      SafeEither(mug, pages, Moment(safe, next), old_, new_);
      Step(next, safe, at, old_, new_);
    }

    /** Apply a synced patch to the segment files, page by page. */
    method Apply(con: Control, mem: seq<Page>, ghost at: nat, ghost old_: Images, ghost new_: Images)
      requires Patching(con, mem, new_) && SafeSince(at, old_, new_)
      modifies this`f, this`safe, this`log
      ensures Patching(con, mem, new_) && SafeSince(at, old_, new_) && safe == old(safe) && Segments(f) == new_
    {
      hide CrashSafe, CrashTo, Patches, Intact, Verified, SafeSince;
      ghost var img := Segments(f);
      VerifiedSize(mug, con, mem);
      PatchesSize(pages, con, mem[..|con.lines|], new_);
      var next := f.(north := Resize(f.north, con.nor));
      IntactResized(pages, con, mem, img, Segments(next), new_);
      Put(next, con, mem, at, old_, new_);
      next := f.(south := Resize(f.south, con.sou));
      IntactResized(pages, con, mem, img, Segments(next), new_);
      Put(next, con, mem, at, old_, new_);
      ghost var start := Segments(f);
      for i := 0 to |con.lines|
        modifies this`f, this`safe, this`log
        invariant Patching(con, mem, new_) && SafeSince(at, old_, new_) && safe == old(safe)
        invariant Segments(f) == ApplyLines(pages, start, con, mem, i)
      {
        var pag := con.lines[i].pag;
        if pag < con.nor {
          next := f.(north := WritePage(f.north, pag, mem[i]));
        } else {
          next := f.(south := WritePage(f.south, Off(pages, pag), mem[i]));
        }
        IntactApplying(pages, con, mem, img, new_, i + 1);
        Put(next, con, mem, at, old_, new_);
      }
      FirstPages(pages, start, con, mem, |con.lines|);
      ApplyGives(pages, img, con, mem[..|con.lines|], new_);
    }

    /** Sync the segments and remove the patch. */
    method Settle(con: Control, mem: seq<Page>, ghost at: nat, ghost old_: Images, ghost new_: Images)
      requires Sized() && Patching(con, mem, new_) && SafeSince(at, old_, new_) && Segments(f) == new_
      modifies this`f, this`safe, this`log
      ensures Quiet(new_) && SafeSince(at, old_, new_) && f.mem == None
    {
      hide CrashSafe, CrashTo, Patches, Intact, Verified, SafeSince;
      VerifiedSize(mug, con, mem);
      PatchesSize(pages, con, mem[..|con.lines|], new_);
      IntactSelf(pages, con, new_);
      ghost var half := safe.(north := f.north);
      IntactMixed(pages, con, Segments(safe), Segments(half), new_);
      SafeApplied(mug, pages, Moment(half, f), con, mem, new_);
      SafeEither(mug, pages, Moment(half, f), old_, new_);
      Step(f, half, at, old_, new_);
      ghost var all := safe.(south := f.south);
      SafeApplied(mug, pages, Moment(all, f), con, mem, new_);
      SafeEither(mug, pages, Moment(all, f), old_, new_);
      Step(f, all, at, old_, new_);
      SafeRemoved(mug, pages, Moment(safe, f.(ctl := NoCtl)), con, mem, new_);
      SafeEither(mug, pages, Moment(safe, f.(ctl := NoCtl)), old_, new_);
      Step(f.(ctl := NoCtl), safe, at, old_, new_);
      SafeRemoved(mug, pages, Moment(safe, f.(mem := None)), con, mem, new_);
      SafeEither(mug, pages, Moment(safe, f.(mem := None)), old_, new_);
      Step(f.(mem := None), safe, at, old_, new_);
    }

    /** Save the changes since the last save. Whenever a crash comes, a start restores exactly the
        segments from before or exactly those of the memory in use. It stops the process if and only if
        there are changes and a memory file is in the way. */
    method Save(n: nat, s: nat, ghost cur: Images, ghost at: nat) returns (ok: bool)
      requires Quiet(cur) && n + s <= pages && Ready(loom, dirty, cur, n, s) && Exact(mug) && SafeSince(at, cur, InUse(loom, n, s))
      modifies this`dirty, this`f, this`safe, this`log
      ensures SafeSince(at, cur, InUse(loom, n, s))
      ensures
        if old(Picked(pages, n, dirty, n + s)) == [] then ok && Quiet(cur) && f == old(f) && dirty == old(dirty)
        else if old(f.mem).Some? then
          && !ok && f == old(f).(ctl := Ctl(None)) && dirty == old(dirty)
          && forall e | CrashTo(Moment(safe, f), e) :: e.ctl == Ctl(None) && Restorable(mug, pages, e, cur)
        else ok && Quiet(InUse(loom, n, s)) && f.mem == None && forall i | 0 <= i < pages :: dirty[i] == (old(dirty)[i] && n <= i < pages - s)
    {
      hide CrashSafe, CrashTo, Ready, Patches, Intact, Exact, Verified, Describes, SafeSince;
      ghost var new_ := InUse(loom, n, s);
      Composed(mug, loom, dirty, cur, n, s);
      ghost var mem := MemOf(loom, dirty, n, s);
      var con;
      ok, con := Compose(n, s, cur, at);
      if !ok { StoppedSafe(mug, pages, Moment(safe, f), cur); }
      if !ok || con == None { return; }
      SafeComposing(mug, pages, Moment(safe.(ctl := f.ctl), f), con.value, mem, cur, new_);
      Step(f, safe.(ctl := f.ctl), at, cur, new_);
      SafeComposing(mug, pages, Moment(safe.(mem := f.mem), f), con.value, mem, cur, new_);
      Step(f, safe.(mem := f.mem), at, cur, new_);
      DescribedVerifies(mug, con.value, mem, pages, new_);
      ok := Verify(con.value, f.mem.value);
      assert ok;
      Apply(con.value, f.mem.value, at, cur, new_);
      Settle(con.value, f.mem.value, at, cur, new_);
    }

    lemma Current(at: nat, old_: Images, new_: Images)
      requires SafeSince(at, old_, new_)
      ensures CrashSafe(mug, pages, Moment(safe, f), old_, new_)
    {
      hide CrashSafe;
    }

    /** Finish a patch left by a crash, or remove what cannot be finished. A memory file is removed if
        and only if there is a control file. */
    method Recover(ghost at: nat, ghost target: Images)
      requires Sized() && f == safe && Restorable(mug, pages, f, target) && SafeSince(at, target, target)
      modifies this`f, this`safe, this`log
      ensures Quiet(target) && SafeSince(at, target, target)
      ensures if old(f.ctl) == NoCtl then f == old(f) else f.mem == None
    {
      hide CrashSafe, CrashTo, Patches, Intact, Exact, Verified, SafeSince;
      if f.ctl == NoCtl {
        Current(at, target, target);
        return;
      }
      if f.ctl.con.Some? && f.mem.Some? {
        var con, mem := f.ctl.con.value, f.mem.value;
        var ok := Verify(con, mem);
        if ok {
          Apply(con, mem, at, target, target);
          Settle(con, mem, at, target, target);
          return;
        }
      }
      SafeDropping(mug, pages, Moment(safe, f.(ctl := NoCtl)), target);
      Step(f.(ctl := NoCtl), safe, at, target, target);
      SafeDropping(mug, pages, Moment(safe, f.(mem := None)), target);
      Step(f.(mem := None), safe, at, target, target);
    }

    /** Copy the segments into memory; their pages are clean, the others dirty. */
    method Blit()
      requires Sized() && |f.north| + |f.south| <= pages
      modifies this`loom, this`dirty
      ensures Sized()
      ensures forall i | 0 <= i < |f.north| :: loom[i] == f.north[i]
      ensures forall i | 0 <= i < |f.south| :: loom[pages - 1 - i] == f.south[i]
      ensures forall i | 0 <= i < pages :: dirty[i] == (|f.north| <= i < pages - |f.south|)
    {
      dirty := seq(pages, i => true);
      for i := 0 to |f.north|
        modifies this`loom, this`dirty
        invariant Sized() && forall j | 0 <= j < i :: loom[j] == f.north[j]
        invariant forall j | 0 <= j < pages :: dirty[j] == (j >= i)
      {
        loom := loom[i := f.north[i]];
        dirty := dirty[i := false];
      }
      for i := 0 to |f.south|
        modifies this`loom, this`dirty
        invariant Sized() && (forall j | 0 <= j < |f.north| :: loom[j] == f.north[j])
        invariant forall j | 0 <= j < i :: loom[pages - 1 - j] == f.south[j]
        invariant forall j | 0 <= j < pages :: dirty[j] == (|f.north| <= j < pages - i)
      {
        loom := loom[pages - 1 - i := f.south[i]];
        dirty := dirty[pages - 1 - i := false];
      }
    }

    /** Start: repair, and copy the segments into memory. A crash on the way changes nothing. */
    method Live(ghost at: nat, ghost target: Images)
      requires Sized() && f == safe && Restorable(mug, pages, f, target) && SafeSince(at, target, target)
      requires |target.north| + |target.south| <= pages
      modifies this
      ensures Quiet(target) && SafeSince(at, target, target)
      ensures if old(f.ctl) == NoCtl then f == old(f) else f.mem == None
      ensures InUse(loom, |target.north|, |target.south|) == target
      ensures forall i | 0 <= i < pages :: dirty[i] == (|target.north| <= i < pages - |target.south|)
    {
      hide CrashSafe, CrashTo, Patches, Intact, Exact, Verified, Restorable, SafeSince;
      Recover(at, target);
      Blit();
    }
  }

  lemma SafeEither(mug: Page -> nat, pages: nat, t: Moment, old_: Images, new_: Images)
    requires CrashSafe(mug, pages, t, new_, new_)
    ensures CrashSafe(mug, pages, t, old_, new_)
  {
    hide Restorable, CrashTo;
  }

  lemma PickStep(pages: nat, n: nat, dirty: seq<bool>, k: nat)
    requires n <= pages == |dirty| && k < pages
    ensures
      var p := Visit(pages, n, k);
      p < pages && Picked(pages, n, dirty, k + 1) == if dirty[p] then Picked(pages, n, dirty, k) + [p] else Picked(pages, n, dirty, k)
  {
  }

  lemma PickNone(pages: nat, n: nat, dirty: seq<bool>)
    requires n <= pages == |dirty|
    ensures Picked(pages, n, dirty, 0) == []
  {
  }

  lemma VerifiedSize(mug: Page -> nat, con: Control, mem: seq<Page>)
    requires Verified(mug, con, mem)
    ensures |con.lines| <= |mem|
  {
  }

  lemma PatchesSize(pages: nat, con: Control, mem: seq<Page>, new_: Images)
    requires Patches(pages, con, mem, new_)
    ensures con.nor == |new_.north| && con.sou == |new_.south| && con.nor + con.sou <= pages && |con.lines| == |mem|
  {
  }

  lemma IntactResized(pages: nat, con: Control, mem: seq<Page>, img: Images, got: Images, new_: Images)
    requires |con.lines| <= |mem| && Patches(pages, con, mem[..|con.lines|], new_) && Intact(pages, con, img, new_)
    requires got.north in {img.north, Resize(img.north, con.nor)} && got.south in {img.south, Resize(img.south, con.sou)}
    ensures Intact(pages, con, got, new_)
  {
    hide Touches, LineOk;
    forall i | 0 <= i < con.nor ensures InPlace(con, i, got.north, new_.north, i) { assert InPlace(con, i, img.north, new_.north, i); }
    forall i | 0 <= i < con.sou ensures SouthInPlace(pages, con, got.south, new_.south, i) {
      assert SouthInPlace(pages, con, img.south, new_.south, i);
    }
  }

  /** Untouched pages stay in place while the others are written. */
  lemma IntactApplying(pages: nat, con: Control, mem: seq<Page>, img: Images, new_: Images, k: nat)
    requires k <= |con.lines| <= |mem| && Patches(pages, con, mem[..|con.lines|], new_) && Intact(pages, con, img, new_)
    ensures Intact(pages, con, ApplyLines(pages, Images(Resize(img.north, con.nor), Resize(img.south, con.sou)), con, mem, k), new_)
  {
    hide LineOk, ApplyLines;
    var start := Images(Resize(img.north, con.nor), Resize(img.south, con.sou));
    IntactResized(pages, con, mem, img, start, new_);
    ApplySteps(pages, start, con, mem[..|con.lines|], new_, k);
    FirstPages(pages, start, con, mem, k);
    var got := ApplyLines(pages, start, con, mem, k);
    forall i | 0 <= i < con.nor ensures InPlace(con, i, got.north, new_.north, i) {
      assert InPlace(con, i, start.north, new_.north, i) && StepAt(con, k, i, start.north, got.north, new_.north, i);
    }
    forall i | 0 <= i < con.sou ensures SouthInPlace(pages, con, got.south, new_.south, i) {
      assert SouthInPlace(pages, con, start.south, new_.south, i) && SouthStepAt(pages, con, k, start.south, got.south, new_.south, i);
    }
  }

  lemma IntactMixed(pages: nat, con: Control, a: Images, b: Images, new_: Images)
    requires con.nor == |new_.north| && con.sou == |new_.south| && con.nor + con.sou <= pages
    requires Intact(pages, con, a, new_) && b.north in {a.north, new_.north} && b.south in {a.south, new_.south}
    ensures Intact(pages, con, b, new_)
  {
    hide Touches;
    forall i | 0 <= i < con.nor ensures InPlace(con, i, b.north, new_.north, i) { assert InPlace(con, i, a.north, new_.north, i); }
    forall i | 0 <= i < con.sou ensures SouthInPlace(pages, con, b.south, new_.south, i) {
      assert SouthInPlace(pages, con, a.south, new_.south, i);
    }
  }

  /** Once the patch is on disk, the segments may be anything its untouched pages allow. */
  lemma SafeApplied(mug: Page -> nat, pages: nat, t: Moment, con: Control, mem: seq<Page>, new_: Images)
    requires t.safe.ctl == t.now.ctl == Ctl(Some(con)) && t.safe.mem == t.now.mem == Some(mem) && Verified(mug, con, mem)
    requires Patches(pages, con, mem[..|con.lines|], new_)
    requires Intact(pages, con, Segments(t.safe), new_) && Intact(pages, con, Segments(t.now), new_)
    ensures CrashSafe(mug, pages, t, new_, new_)
  {
    hide Intact, MayBe, LineOk, Verified;
    forall e | CrashTo(t, e) ensures Restorable(mug, pages, e, new_) {
      IntactCrash(pages, con, t, e, new_);
      assert OpenPatch(mug, e) == Some(con);
    }
  }

  lemma SafeRemoved(mug: Page -> nat, pages: nat, t: Moment, con: Control, mem: seq<Page>, new_: Images)
    requires Segments(t.safe) == Segments(t.now) == new_ && |con.lines| <= |mem| && Patches(pages, con, mem[..|con.lines|], new_)
    requires t.safe.ctl == Ctl(Some(con)) && t.now.ctl in {NoCtl, Ctl(Some(con))}
    requires t.safe.mem == Some(mem) && t.now.mem in {None, Some(mem)}
    ensures CrashSafe(mug, pages, t, new_, new_)
  {
    hide Intact, LineOk;
    IntactSelf(pages, con, new_);
    forall e | CrashTo(t, e) ensures Restorable(mug, pages, e, new_) { assert Segments(e) == new_; }
  }

  /** Dropping files that hold no usable patch. */
  lemma SafeDropping(mug: Page -> nat, pages: nat, t: Moment, target: Images)
    requires Segments(t.safe) == Segments(t.now) == target && OpenPatch(mug, t.safe) == None
    requires t.now.ctl in {NoCtl, t.safe.ctl} && t.now.mem in {None, t.safe.mem}
    ensures CrashSafe(mug, pages, t, target, target)
  {
    forall e | CrashTo(t, e) ensures Restorable(mug, pages, e, target) { assert Segments(e) == target; }
  }

  /** A save that was stopped leaves an empty control file, which no crash undoes: the start after it
      finds the segments in place, and removes what stood in the way. */
  lemma StoppedSafe(mug: Page -> nat, pages: nat, t: Moment, cur: Images)
    requires Segments(t.safe) == Segments(t.now) == cur && t.safe.ctl == t.now.ctl == Ctl(None)
    ensures forall e | CrashTo(t, e) :: e.ctl == Ctl(None) && Restorable(mug, pages, e, cur)
  {
    forall e | CrashTo(t, e) ensures e.ctl == Ctl(None) && Restorable(mug, pages, e, cur) { assert Segments(e) == cur; }
  }

  /** A crash between the removal of the two files, or one that brings the second back, leaves a memory
      file without a control file. */
  lemma MemoryLeft(mug: Page -> nat, pages: nat, now: Files, con: Control, mem: seq<Page>)
    requires now.ctl == NoCtl && now.mem in {None, Some(mem)}
    ensures
      var e := now.(mem := Some(mem));
      CrashTo(Moment(now.(ctl := Ctl(Some(con)), mem := Some(mem)), now), e) && Restorable(mug, pages, e, Segments(now))
  {
  }

  lemma SafeStill(mug: Page -> nat, pages: nat, f: Files, target: Images)
    requires Restorable(mug, pages, f, target)
    ensures CrashSafe(mug, pages, Moment(f, f), target, target)
  {
    hide Restorable;
    forall e | CrashTo(Moment(f, f), e) ensures Restorable(mug, pages, e, target) { assert e == f; }
  }

  /** A process on a disk with the given files: a start, a write to page 0, and a save. It is stopped
      if and only if it found a memory file without a control file; and then the next one is not. */
  method OneLife(mug: Page -> nat, pages: nat, files: Files, page: Page, ghost cur: Images) returns (ok: bool, left: Files)
    requires Exact(mug) && Restorable(mug, pages, files, cur) && cur.north != [] && |cur.north| + |cur.south| <= pages
    ensures ok <==> !(files.ctl == NoCtl && files.mem.Some?)
    ensures ok ==> left == Files(cur.north[0 := page], cur.south, NoCtl, None)
    ensures !ok ==> left == files.(ctl := Ctl(None)) && Restorable(mug, pages, left, cur)
  {
    hide CrashSafe, CrashTo, Patches, Intact, Exact, Verified, Restorable, Ready, Picked, MayBe;
    var pool := new Pool(mug, pages, files);
    SafeStill(mug, pages, files, cur);
    pool.Live(0, cur);
    ghost var was := pool.loom;
    pool.Write(0, page);
    var n, s := |pool.f.north|, |pool.f.south|;
    FirstDirty(was, pool.loom, pool.dirty, cur, page);
    ghost var at, new_ := |pool.log| - 1, InUse(pool.loom, n, s);
    pool.Current(0, cur, cur);
    SafeNew(mug, pages, Moment(pool.safe, pool.f), cur, new_);
    ok := pool.Save(n, s, cur, at);
    left := pool.f;
    if !ok { StoppedFiles(mug, pages, left, cur); }
  }

  lemma StoppedFiles(mug: Page -> nat, pages: nat, e: Files, cur: Images)
    requires Segments(e) == cur && e.ctl == Ctl(None)
    ensures Restorable(mug, pages, e, cur)
  {
  }

  lemma SafeNew(mug: Page -> nat, pages: nat, t: Moment, old_: Images, new_: Images)
    requires CrashSafe(mug, pages, t, old_, old_)
    ensures CrashSafe(mug, pages, t, old_, new_)
  {
    hide Restorable, CrashTo;
  }

  /** After a start and a write to page 0, that page is what there is to save. */
  lemma FirstDirty(was: seq<Page>, loom: seq<Page>, dirty: seq<bool>, cur: Images, page: Page)
    requires cur.north != [] && |cur.north| + |cur.south| <= |was| == |dirty| && loom == was[0 := page]
    requires InUse(was, |cur.north|, |cur.south|) == cur
    requires forall i | 0 <= i < |dirty| :: dirty[i] == (i == 0 || |cur.north| <= i < |dirty| - |cur.south|)
    ensures Ready(loom, dirty, cur, |cur.north|, |cur.south|)
    ensures Picked(|loom|, |cur.north|, dirty, |cur.north| + |cur.south|) != []
    ensures InUse(loom, |cur.north|, |cur.south|) == Images(cur.north[0 := page], cur.south)
  {
    hide InUse, Picked;
    var n, s := |cur.north|, |cur.south|;
    var new_ := InUse(loom, n, s);
    UsedAt(was, n, s);
    UsedAt(loom, n, s);
    forall i | 0 <= i < n ensures dirty[i] || There(cur.north, loom, i) {}
    forall i | 0 <= i < s ensures SouthBacked(loom, dirty, cur, i) {}
    assert new_.north == cur.north[0 := page];
    assert new_.south == cur.south;
    var j := PickedHas(|loom|, n, dirty, n + s, 0);
  }

  lemma UsedAt(loom: seq<Page>, n: nat, s: nat)
    requires n + s <= |loom|
    ensures
      var img := InUse(loom, n, s);
      && |img.north| == n && |img.south| == s && (forall i | 0 <= i < n :: img.north[i] == loom[i])
      && forall i | 0 <= i < s :: img.south[i] == loom[|loom| - 1 - i]
  {
  }

  lemma DescribedVerifies(mug: Page -> nat, con: Control, mem: seq<Page>, pages: nat, new_: Images)
    requires Describes(mug, con, mem) && Patches(pages, con, mem, new_)
    ensures Verified(mug, con, mem) && mem[..|con.lines|] == mem
  {
    hide LineOk;
  }

  // ---- what it comes to ----

  /** A crash at any moment of a save, and a start: exactly the old or exactly the new segments. */
  lemma CrashAtomic(mug: Page -> nat, pages: nat, t: Moment, e: Files, old_: Images, new_: Images)
    requires CrashSafe(mug, pages, t, old_, new_) && CrashTo(t, e)
    ensures Recovered(mug, pages, e) == old_ || Recovered(mug, pages, e) == new_
  {
    hide Patches, Intact, OpenPatch, Recovered, CrashTo;
    if Restorable(mug, pages, e, old_) {
      RestorableRecovers(mug, pages, e, old_);
    } else {
      RestorableRecovers(mug, pages, e, new_);
    }
  }

  /** Every clean page is in a segment, with equal contents. */
  ghost predicate Steady(loom: seq<Page>, dirty: seq<bool>, img: Images)
    requires |loom| == |dirty|
  {
    |img.north| + |img.south| <= |loom| && forall p | 0 <= p < |loom| :: Held(loom, dirty, img, p)
  }

  predicate Held(loom: seq<Page>, dirty: seq<bool>, img: Images, p: nat)
    requires p < |loom| == |dirty|
  {
    dirty[p] || Copied(loom, img, p)
  }

  predicate Copied(loom: seq<Page>, img: Images, p: nat)
    requires p < |loom|
  {
    || (p < |img.north| && img.north[p] == loom[p])
    || (|loom| - 1 - p < |img.south| && img.south[|loom| - 1 - p] == loom[p])
  }

  /** While watermarks do not retreat, saving is always right. */
  lemma SteadyReady(loom: seq<Page>, dirty: seq<bool>, img: Images, n: nat, s: nat)
    requires n + s <= |loom| == |dirty| && Steady(loom, dirty, img) && n >= |img.north| && s >= |img.south|
    ensures Ready(loom, dirty, img, n, s)
  {
    forall i | 0 <= i < n ensures dirty[i] || There(img.north, loom, i) { assert Held(loom, dirty, img, i); }
    forall i | 0 <= i < s ensures SouthBacked(loom, dirty, img, i) {
      assert Held(loom, dirty, img, |loom| - 1 - i);
    }
  }

  /** After a save, every clean page is in a segment if and only if no clean page was left outside
      the watermarks; so it is when they do not retreat. */
  lemma SteadyAfterSave(loom: seq<Page>, dirty: seq<bool>, dirty': seq<bool>, n: nat, s: nat)
    requires n + s <= |loom| == |dirty| == |dirty'|
    requires forall i | 0 <= i < |loom| :: dirty'[i] == (dirty[i] && n <= i < |loom| - s)
    ensures Steady(loom, dirty', InUse(loom, n, s)) <==> forall i | n <= i < |loom| - s :: dirty[i]
    ensures forall img: Images :: Steady(loom, dirty, img) && n >= |img.north| && s >= |img.south| ==> Steady(loom, dirty', InUse(loom, n, s))
  {
    var img := InUse(loom, n, s);
    forall p | 0 <= p < |loom| ensures Copied(loom, img, p) <==> (p < n || p >= |loom| - s) {
      if p < n { assert img.north[p] == loom[p]; }
    }
    if Steady(loom, dirty', img) {
      forall i | n <= i < |loom| - s ensures dirty[i] { assert Held(loom, dirty', img, i); }
    }
    forall was: Images | Steady(loom, dirty, was) && n >= |was.north| && s >= |was.south| ensures forall i | n <= i < |loom| - s :: dirty[i] {
      forall i | n <= i < |loom| - s ensures dirty[i] { assert Held(loom, dirty, was, i); }
    }
  }

  /** A watermark that retreats and comes back without a write loses a page: page 1 is saved, cut
      off by a save that leaves it out, and not written again by one that takes it in. */
  lemma RetreatLoses(mug: Page -> nat)
    ensures
      var full, cut := Images([4, 6], []), Images([5], []);
      && Steady([4, 6], [false, false], full) && Ready([5, 6], [true, false], full, 1, 0) && InUse([5, 6], 1, 0) == cut
      && !Steady([5, 6], [false, false], cut) && !Ready([7, 6], [true, false], cut, 2, 0)
      && ApplyAll(2, cut, ControlOf(mug, [7, 6], [true, false], 2, 0), MemOf([7, 6], [true, false], 2, 0)) == Images([7], [])
      && InUse([7, 6], 2, 0) == Images([7, 6], [])
  {
    var loom, dirty, cut := [7, 6], [true, false], Images([5], []);
    assert !There(cut.north, loom, 1);
    assert !Held([5, 6], [false, false], cut, 1);
    var ps := Picked(2, 2, dirty, 2);
    assert Picked(2, 2, dirty, 1) == [0] by { assert Picked(2, 2, dirty, 0) == []; }
    assert ps == [0];
    var con, mem := ControlOf(mug, loom, dirty, 2, 0), MemOf(loom, dirty, 2, 0);
    assert con.lines == [Line(0, mug(7))] && mem == [7];
    assert ApplyLines(2, cut, con, mem, 0) == cut;
    assert ApplyLines(2, cut, con, mem, 1) == Images([7], []);
  }
}
