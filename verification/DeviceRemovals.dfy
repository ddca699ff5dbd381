/** The loop for books removed locally (case 6): what it has removed from the device after any set of rounds. */
module DeviceRemovals {
  import opened Paths
  import opened InfoSet
  import opened Plan
  import opened FileSystem
  import opened WellFormed
  import opened Invariant
  import opened Removals

  lemma ScopesApart(cfg: Config, p: string)
    requires ConfigOK(cfg) && AtOrBelow(p, cfg.target)
    ensures !AtOrBelow(p, THUMBNAIL_FOLDER)
  {
    if AtOrBelow(p, THUMBNAIL_FOLDER) {
      if p != cfg.target && p != THUMBNAIL_FOLDER { Comparable(p, cfg.target, THUMBNAIL_FOLDER); }
    }
  }

  /** As long as nothing has been created, the device mirror is a part of what was enumerated. */
  lemma AllOriginal(c: Ctx, used: set<string>, s: PState, p: string)
    requires Objects(c, used, s) && s.next == c.i.next && p in s.dst
    ensures p in c.i.dst && s.dst[p] == c.i.dst[p]
  {
    assert DeviceObject(c, s, p);
  }

  /** What the removal steps on the device carry along. */
  ghost predicate Removing(c: Ctx, used: set<string>, s: PState) {
    Inv(c, used, s) && Untouched(c, s) && ThumbsLive(s) && s.next == c.i.next
  }

  ghost predicate DeviceVictim(c: Ctx, q: string) {
    q in c.i.dst ==> !c.i.dst[q].dir && q in c.okDst && Below(q, c.i.cfg.target)
  }

  lemma InvKeyed(c: Ctx, used: set<string>, s: PState)
    requires Inv(c, used, s)
    ensures KeyedMirror(s) && CtxOK(c) && ConfigOK(c.i.cfg)
  {
    hide Objects, Reasons, Parents;
    assert SimDevice(c, s, Now(c, s));
  }

  lemma OriginalId(c: Ctx, q: string)
    requires CtxOK(c) && q in c.i.dst
    ensures c.i.dst[q].id < c.i.next
  {
  }

  lemma RemoveDeviceFile(c: Ctx, used: set<string>, s: PState, q: string)
    requires Removing(c, used, s) && q in s.dst && q in c.i.dst && s.dst[q] == c.i.dst[q] && DeviceVictim(c, q)
    ensures var t := RemoveDst(s, s.dst[q], s.dst[q].path);
            && s.dst[q].path == q && Removing(c, used, t) && t.src == s.src && t.thumbs == s.thumbs
            && Now(c, t) == Now(c, s).(device := Now(c, s).device - {q})
  {
    hide Good, Reasons, Objects, Parents, WorldOK, ViewsOK, Now;
    var obj := s.dst[q];
    InvKeyed(c, used, s);
    ScopesApart(c.i.cfg, q);
    assert q != "" by { assert |q| > |c.i.cfg.target|; }
    var t := RemoveDst(s, obj, q);
    OriginalId(c, q);
    InvRemoveDst(c, used, s, obj, t);
    UntouchedRemove(c, s, obj, t);
    forall n ensures ThumbLive(t, n) { assert ThumbLive(s, n); }
  }

  /** What was listed and is not in the mirror is gone. */
  lemma MirrorLacks(c: Ctx, s: PState, q: string)
    requires Good(c, s) && q !in s.dst
    ensures q in c.i.dst ==> q !in Now(c, s).device
  {
    hide FreshCopies, SimLocal;
    assert SimDevice(c, s, Now(c, s));
  }

  lemma RemoveDstIfFoundInv(c: Ctx, used: set<string>, s: PState, q: string)
    requires Removing(c, used, s) && DeviceVictim(c, q) && q != ""
    ensures var t := RemoveDstIfFound(s, q);
            && Removing(c, used, t) && t.src == s.src && t.thumbs == s.thumbs
            && Now(c, t) == Now(c, s).(device := Now(c, s).device - if q in c.i.dst then {q} else {})
  {
    hide Good, Reasons, Parents, CtxOK, ThumbsLive, Untouched, DeviceVictim, Now, RemoveDst;
    if q in s.dst {
      AllOriginal(c, used, s, q);
      RemoveDeviceFile(c, used, s, q);
    } else {
      MirrorLacks(c, s, q);
      var d := Now(c, s).device;
      assert d - (if q in c.i.dst then {q} else {}) == d;
    }
  }

  /** What the plan needs of a book it removes from the device. */
  ghost predicate Case6At(c: Ctx, thumbs: OIS, k: string) {
    && BookKey(k) && k in c.i.hst && At(c.i.cfg.target, k) in c.i.dst
    && (forall p :: p in VictimsIn(c.i.dst, c.i.cfg.target, k) ==> DeviceVictim(c, p))
    && (c.i.hst[k].thumb in thumbs ==> At(THUMBNAIL_FOLDER, c.i.hst[k].thumb) in c.okDst)
  }

  ghost predicate Case6OK(c: Ctx, thumbs: OIS, ks: set<string>) {
    forall k :: k in ks ==> Case6At(c, thumbs, k)
  }

  /** The paths gone from the device after the rounds `done`. */
  ghost function Gone6(c: Ctx, thumbs: OIS, done: set<string>): set<string> {
    RemovedSet(c.i.dst, c.i.cfg.target, done) + ThumbPaths(thumbs, NamesOf(c.i.hst, done))
  }

  ghost predicate TargetIntact(c: Ctx, dev7: Tree) {
    forall p :: p in c.i.dst && Below(p, c.i.cfg.target) ==> p in dev7
  }

  /** The state after the rounds `done`, from a state with local mirror `src7`, thumbnails `thumbs` and device `dev7`.
      */
  ghost predicate State6(c: Ctx, avail: bool, used: set<string>, src7: OIS, thumbs: OIS, dev7: Tree,
                         done: set<string>, s: PState) {
    && Removing(c, used, s) && (avail || thumbs == map[]) && s.src == src7
    && s.thumbs == thumbs - NamesOf(c.i.hst, done)
    && Now(c, s).device == dev7 - Gone6(c, thumbs, done)
  }

  lemma TargetBookStays(c: Ctx, thumbs: OIS, done: set<string>, k: string)
    requires ConfigOK(c.i.cfg) && k !in done && Case6OK(c, thumbs, done) && Case6At(c, thumbs, k)
    ensures At(c.i.cfg.target, k) !in Gone6(c, thumbs, done)
  {
    var p := At(c.i.cfg.target, k);
    RelCleanEnds(c.i.cfg.target);
    forall j | j in done ensures BookKey(j) { assert Case6At(c, thumbs, j); }
    BookNotVictim(c.i.dst, c.i.cfg.target, done, k);
    ScopesApart(c.i.cfg, p);
  }

  ghost function Device6Steps(s: PState, obj: Obj, q0: string, q1: string): PState {
    RemoveDstIfFound(RemoveDstIfFound(RemoveDst(s, obj, obj.path), q0), q1)
  }

  lemma RemoveThreeDst(c: Ctx, used: set<string>, s: PState, p: string, q0: string, q1: string)
    requires Removing(c, used, s) && p in s.dst && p in c.i.dst && s.dst[p] == c.i.dst[p] && q0 != "" && q1 != ""
    requires DeviceVictim(c, p) && DeviceVictim(c, q0) && DeviceVictim(c, q1)
    ensures var t := Device6Steps(s, s.dst[p], q0, q1);
            && Removing(c, used, t) && t.src == s.src && t.thumbs == s.thumbs
            && Now(c, t) == Now(c, s).(device := Now(c, s).device - (set q | q in {p, q0, q1} && q in c.i.dst))
  {
    hide Removing, RemoveDst, RemoveDstIfFound, DeviceVictim, Now;
    RemoveDeviceFile(c, used, s, p);
    var s1 := RemoveDst(s, s.dst[p], s.dst[p].path);
    RemoveDstIfFoundInv(c, used, s1, q0);
    RemoveDstIfFoundInv(c, used, RemoveDstIfFound(s1, q0), q1);
    var d := Now(c, s).device;
    assert d - {p} - (if q0 in c.i.dst then {q0} else {}) - (if q1 in c.i.dst then {q1} else {})
        == d - (set q | q in {p, q0, q1} && q in c.i.dst);
  }

  lemma Gone6Snoc(c: Ctx, thumbs: OIS, done: set<string>, k: string, d: Tree)
    requires k in c.i.hst
    ensures d - Gone6(c, thumbs, done) - VictimsIn(c.i.dst, c.i.cfg.target, k)
              - (if c.i.hst[k].thumb in thumbs - NamesOf(c.i.hst, done) then {At(THUMBNAIL_FOLDER, c.i.hst[k].thumb)}
                  else {})
            == d - Gone6(c, thumbs, done + {k})
    ensures (thumbs - NamesOf(c.i.hst, done)) - {c.i.hst[k].thumb} == thumbs - NamesOf(c.i.hst, done + {k})
  {
    var n := c.i.hst[k].thumb;
    RemovedSnoc(c.i.dst, c.i.cfg.target, done, k);
    NamesSnoc(c.i.hst, done, k);
    ThumbPathsSnoc(thumbs, NamesOf(c.i.hst, done), n);
    if n in NamesOf(c.i.hst, done) && n in thumbs {
      assert At(THUMBNAIL_FOLDER, n) in ThumbPaths(thumbs, NamesOf(c.i.hst, done));
    }
  }

  lemma Step6Unfold(c: Ctx, avail: bool, history: OIS, s: PState, k: string, obj: Obj, q0: string, q1: string)
    requires k != "" && k in history && k in c.i.hst && history[k] == c.i.hst[k] && Supplements(obj.path) == [q0, q1]
    ensures Step6(avail, history, s, k, obj) == RemoveThumb(Device6Steps(s, obj, q0, q1), avail, c.i.hst[k].thumb)
  {
  }

  lemma BookSupplements(d: string, k: string) returns (q0: string, q1: string)
    requires RootPath(d) && BookKey(k)
    ensures Supplements(At(d, k)) == [q0, q1] && q0 != "" && q1 != "" && k != ""
  {
    hide Supplements, RelClean, Ext, Base, RootPath, LastIndex, At;
    assert Rerooted(d, Supplements(At(d, k)), Supplements(k)) by { SupplementsAt(d, k); }
    RelCleanEnds(k);
    q0, q1 := Supplements(At(d, k))[0], Supplements(At(d, k))[1];
    AtNotEmpty(d, Supplements(k)[0]);
    AtNotEmpty(d, Supplements(k)[1]);
  }

  lemma AtNotEmpty(d: string, r: string)
    ensures At(d, r) != ""
  {
  }

  /** The book of this round is still in the mirror, as it was read. */
  lemma BookOriginal(c: Ctx, avail: bool, used: set<string>, src7: OIS, thumbs: OIS, dev7: Tree, done: set<string>,
                     s: PState, k: string)
    requires State6(c, avail, used, src7, thumbs, dev7, done, s) && TargetIntact(c, dev7) && k !in done
    requires Case6OK(c, thumbs, done) && Case6At(c, thumbs, k)
    ensures var p := At(c.i.cfg.target, k);
            p in s.dst && p in c.i.dst && s.dst[p] == c.i.dst[p] && s.dst[p].path == p
  {
    hide Gone6, BookKey, VictimsIn, Untouched, ThumbsLive, Objects, Reasons, Parents, SimLocal, Exec, FreshCopies;
    var p := At(c.i.cfg.target, k);
    InvKeyed(c, used, s);
    assert Below(p, c.i.cfg.target) by { assert |p| > |c.i.cfg.target|; }
    TargetBookStays(c, thumbs, done, k);
    assert p in Now(c, s).device && SimDevice(c, s, Now(c, s));
    AllOriginal(c, used, s, p);
  }

  lemma ThreeVictims(c: Ctx, thumbs: OIS, k: string, q0: string, q1: string)
    requires Case6At(c, thumbs, k) && Supplements(At(c.i.cfg.target, k)) == [q0, q1]
    ensures var p := At(c.i.cfg.target, k);
            && DeviceVictim(c, p) && DeviceVictim(c, q0) && DeviceVictim(c, q1)
            && VictimsIn(c.i.dst, c.i.cfg.target, k) == set q | q in {p, q0, q1} && q in c.i.dst
  {
    hide Supplements, BookKey, VictimsIn, DeviceVictim;
    VictimsThree(c.i.dst, c.i.cfg.target, k, q0, q1);
    var p := At(c.i.cfg.target, k);
    forall q | q in {p, q0, q1} ensures DeviceVictim(c, q) {
      if q in c.i.dst { assert q in VictimsIn(c.i.dst, c.i.cfg.target, k); } else { NoVictim(c, q); }
    }
  }

  lemma NoVictim(c: Ctx, q: string)
    requires q !in c.i.dst
    ensures DeviceVictim(c, q)
  {
  }

  lemma Step6State(c: Ctx, avail: bool, used: set<string>, src7: OIS, thumbs: OIS, dev7: Tree, done: set<string>,
                   s: PState,
                   history: OIS, k: string, q0: string, q1: string)
    requires State6(c, avail, used, src7, thumbs, dev7, done, s) && TargetIntact(c, dev7) && k !in done
    requires Case6OK(c, thumbs, done) && Case6At(c, thumbs, k) && k in history && history[k] == c.i.hst[k]
    requires Supplements(At(c.i.cfg.target, k)) == [q0, q1] && q0 != "" && q1 != "" && k != ""
    ensures State6(c, avail, used, src7, thumbs, dev7, done + {k},
              Step6(avail, history, s, k, c.i.dst[At(c.i.cfg.target, k)]))
  {
    hide Supplements, Step6, Gone6, BookKey, VictimsIn, RemoveThumb, Device6Steps, NamesOf, Untouched, ThumbsLive;
    hide Inv, Exec, TargetIntact, DeviceVictim;
    var p := At(c.i.cfg.target, k);
    BookOriginal(c, avail, used, src7, thumbs, dev7, done, s, k);
    ThreeVictims(c, thumbs, k, q0, q1);
    RemoveThreeDst(c, used, s, p, q0, q1);
    var t := Device6Steps(s, s.dst[p], q0, q1);
    RemoveThumbInv(c, used, t, avail, c.i.hst[k].thumb);
    Step6Unfold(c, avail, history, s, k, s.dst[p], q0, q1);
    Gone6Snoc(c, thumbs, done, k, dev7);
  }

  lemma CaseBook(c: Ctx, thumbs: OIS, k: string) returns (q0: string, q1: string)
    requires Case6At(c, thumbs, k) && RootPath(c.i.cfg.target)
    ensures Supplements(At(c.i.cfg.target, k)) == [q0, q1] && q0 != "" && q1 != "" && k != ""
  {
    q0, q1 := BookSupplements(c.i.cfg.target, k);
  }

  /** The loop for case 6, in any order. */
  lemma {:induction false} Loop6State(c: Ctx, avail: bool, used: set<string>, thumbs: OIS, dev7: Tree, s: PState,
                                      history: OIS, objs: OIS, order: seq<string>)
    requires State6(c, avail, used, s.src, thumbs, dev7, {}, s) && TargetIntact(c, dev7) && NoRepeat(order)
    requires forall k :: k in order ==> k in history && k in c.i.hst && history[k] == c.i.hst[k]
    requires forall k :: k in order ==>
              k in objs && At(c.i.cfg.target, k) in c.i.dst && objs[k] == c.i.dst[At(c.i.cfg.target, k)]
    requires Case6OK(c, thumbs, Keys(order)) && RootPath(c.i.cfg.target)
    ensures State6(c, avail, used, s.src, thumbs, dev7, Keys(order), Loop6(avail, history, s, objs, order))
    decreases |order|
  {
    hide State6, TargetIntact, Step6, Supplements, BookKey, RootPath, Case6At;
    if order == [] {
      assert Keys(order) == {};
    } else {
      var pre, k := order[..|order| - 1], order[|order| - 1];
      KeysSnoc(order);
      assert Case6At(c, thumbs, k);
      assert k !in Keys(pre);
      Loop6State(c, avail, used, thumbs, dev7, s, history, objs, pre);
      var q0, q1 := CaseBook(c, thumbs, k);
      Step6State(c, avail, used, s.src, thumbs, dev7, Keys(pre), Loop6(avail, history, s, objs, pre), history, k, q0,
          q1);
    }
  }

  lemma State6Start(c: Ctx, avail: bool, used: set<string>, s: PState)
    requires Removing(c, used, s) && (avail || s.thumbs == map[])
    ensures State6(c, avail, used, s.src, s.thumbs, Now(c, s).device, {}, s)
  {
    hide Removing, Now;
    assert NamesOf(c.i.hst, {}) == {} && Gone6(c, s.thumbs, {}) == {};
    assert s.thumbs - {} == s.thumbs && Now(c, s).device - {} == Now(c, s).device;
  }
}
