/** The two removal loops of PrepareActions: what they have removed after any set of rounds, in any order. */
module Removals {
  import opened Paths
  import opened InfoSet
  import opened Plan
  import opened FileSystem
  import opened WellFormed
  import opened Invariant
  import opened LocalPhase

  /** `p` is the book `k` under `root`, or one of its page indexes. */
  predicate VictimOf(root: string, k: string, p: string) {
    var b := At(root, k);
    p == b || p == Supplements(b)[0] || p == Supplements(b)[1]
  }

  function VictimsIn(os: OIS, root: string, k: string): set<string> {
    set p | p in os && VictimOf(root, k, p)
  }

  /** The files that go with the books `done`. */
  ghost function RemovedSet(os: OIS, root: string, done: set<string>): set<string> {
    set p | p in os && exists k :: k in done && VictimOf(root, k, p)
  }

  lemma RemovedSnoc(os: OIS, root: string, done: set<string>, k: string)
    ensures RemovedSet(os, root, done + {k}) == RemovedSet(os, root, done) + VictimsIn(os, root, k)
  {
    forall p | p in VictimsIn(os, root, k) ensures p in RemovedSet(os, root, done + {k}) { assert k in done + {k}; }
    forall p | p in RemovedSet(os, root, done) ensures p in RemovedSet(os, root, done + {k}) {
      var j :| j in done && VictimOf(root, j, p);
      assert j in done + {k};
    }
  }

  function NamesOf(hst: OIS, done: set<string>): set<string> {
    set k | k in done && k in hst :: hst[k].thumb
  }

  function ThumbPaths(thumbs: OIS, names: set<string>): set<string> {
    set n | n in names && n in thumbs :: At(THUMBNAIL_FOLDER, n)
  }

  lemma NamesSnoc(hst: OIS, done: set<string>, k: string)
    requires k in hst
    ensures NamesOf(hst, done + {k}) == NamesOf(hst, done) + {hst[k].thumb}
  {
    assert forall n :: n in NamesOf(hst, done + {k}) ==> n in NamesOf(hst, done) || n == hst[k].thumb;
    assert k in done + {k};
    forall n | n in NamesOf(hst, done) ensures n in NamesOf(hst, done + {k}) {
      var j :| j in done && j in hst && hst[j].thumb == n;
      assert j in done + {k};
    }
  }

  lemma ThumbPathsSnoc(thumbs: OIS, names: set<string>, n: string)
    ensures ThumbPaths(thumbs, names + {n}) == ThumbPaths(thumbs, names) + if n in thumbs
              then {At(THUMBNAIL_FOLDER, n)} else {}
  {
  }

  // ---------------------------------------------------------------------------------- thumbnails

  /** The thumbnail set holds the very objects of the device mirror, under their names. */
  ghost predicate ThumbLive(s: PState, n: string) {
    n in s.thumbs ==>
      && n != "" && At(THUMBNAIL_FOLDER, n) in s.dst && s.dst[At(THUMBNAIL_FOLDER, n)] == s.thumbs[n]
      && !s.thumbs[n].dir && s.thumbs[n].path == At(THUMBNAIL_FOLDER, n)
  }

  ghost predicate ThumbsLive(s: PState) {
    forall n :: ThumbLive(s, n)
  }

  lemma RemoveThumbInv(c: Ctx, used: set<string>, s: PState, avail: bool, n: string)
    requires Inv(c, used, s) && Untouched(c, s) && ThumbsLive(s)
    requires avail || s.thumbs == map[]
    requires n in s.thumbs ==> At(THUMBNAIL_FOLDER, n) in c.okDst
    requires s.next == c.i.next
    ensures var t := RemoveThumb(s, avail, n);
            && Inv(c, used, t) && Untouched(c, t) && ThumbsLive(t)
            && t.src == s.src && t.next == s.next && t.thumbs == s.thumbs - {n}
            && Now(c, t) == Now(c, s).(device := Now(c, s).device - if n in s.thumbs then {At(THUMBNAIL_FOLDER, n)}
               else {})
  {
    hide WorldOK, ViewsOK, Inv, Untouched, RemoveDst, Exec;
    assert ThumbLive(s, n);
    if n in s.thumbs {
      var thumb := s.thumbs[n];
      var t0 := RemoveDst(s, thumb, thumb.path);
      RemoveDstIs(s, thumb);
      ThumbRemoved(c, used, s, thumb, t0);
      var t := t0.(thumbs := Drop(s.thumbs, n));
      InvThumbs(c, used, t0, t);
      UntouchedSame(c, t0, t);
      forall m ensures ThumbLive(t, m) {
        assert ThumbLive(s, m);
        if m != n && At(THUMBNAIL_FOLDER, m) == At(THUMBNAIL_FOLDER, n) { AtInjective(THUMBNAIL_FOLDER, m, n); }
      }
    } else {
      assert s.thumbs - {n} == s.thumbs;
      assert Now(c, s).device - {} == Now(c, s).device;
    }
  }

  lemma UntouchedSame(c: Ctx, s: PState, t: PState)
    requires Untouched(c, s) && t.dst == s.dst
    ensures Untouched(c, t)
  {
  }

  lemma ThumbRemoved(c: Ctx, used: set<string>, s: PState, thumb: Obj, t0: PState)
    requires Inv(c, used, s) && Untouched(c, s) && s.next == c.i.next
    requires thumb.path in s.dst && s.dst[thumb.path] == thumb && !thumb.dir && thumb.path in c.okDst
    requires thumb.path != ""
    requires t0 == RemoveDst(s, thumb, thumb.path)
    ensures Inv(c, used, t0) && Untouched(c, t0)
    ensures Now(c, t0) == Now(c, s).(device := Now(c, s).device - {thumb.path})
  {
    hide WorldOK, ViewsOK, Exec, Good, Reasons, Parents;
    assert DeviceObject(c, s, thumb.path) && OkDstAt(c, thumb.path);
    InvRemoveDst(c, used, s, thumb, t0);
    UntouchedRemove(c, s, thumb, t0);
  }

  /** The thumbnail set itself is not part of what the invariant speaks about. */
  lemma ObjectsThumbs(c: Ctx, used: set<string>, s: PState, t: PState)
    requires Objects(c, used, s) && t == s.(thumbs := t.thumbs)
    ensures Objects(c, used, t)
  {
    hide SharesOnlyReplaced, HistoryUnused, SourceUnused, Unused, OnlyMade, NotCopied;
    forall p | p in t.dst ensures DeviceObject(c, t, p) { assert DeviceObject(c, s, p); }
  }

  lemma ParentsThumbs(c: Ctx, s: PState, t: PState)
    requires Parents(c, s) && t == s.(thumbs := t.thumbs)
    ensures Parents(c, t)
  {
    hide Dir;
    forall j ensures ParentAt(c, t, j) { assert ParentAt(c, s, j); }
  }

  /** The invariant does not speak of the known thumbnails. */
  lemma InvThumbs(c: Ctx, used: set<string>, s: PState, t: PState)
    requires Inv(c, used, s) && t == s.(thumbs := t.thumbs)
    ensures Inv(c, used, t) && Now(c, t) == Now(c, s)
  {
    hide CtxOK, Reasons, Objects, Parents, Exec, FreshCopies;
    ObjectsThumbs(c, used, s, t);
    ParentsThumbs(c, s, t);
  }

  // ---------------------------------------------------------------------------------- books removed from the device

  /** What the plan needs of a book it removes locally: it is a file there, its history object names it, its page
      indexes are files, and there is a reason for each. */
  ghost predicate Case7At(c: Ctx, thumbs: OIS, k: string) {
    && k in c.i.hst && At(c.i.cfg.source, k) in c.i.src && c.i.hst[k].path == At(c.i.cfg.source, k)
    && (forall p :: p in VictimsIn(c.i.src, c.i.cfg.source, k) ==> !c.i.src[p].dir && p in c.okSrc)
    && (c.i.hst[k].thumb in thumbs ==> At(THUMBNAIL_FOLDER, c.i.hst[k].thumb) in c.okDst)
    && BookKey(k)
  }

  ghost predicate Case7OK(c: Ctx, thumbs: OIS, ks: set<string>) {
    forall k :: k in ks ==> Case7At(c, thumbs, k)
  }

  /** The state after removing the books `done`: closed forms for the local mirror, the thumbnails and the device. */
  ghost predicate State7(c: Ctx, avail: bool, thumbs: OIS, done: set<string>, s: PState) {
    && Inv(c, done, s) && Untouched(c, s) && ThumbsLive(s) && (avail || thumbs == map[])
    && LocalInv(c.i.src, c.i.cfg.source, RemovedSet(c.i.src, c.i.cfg.source, done), s.src)
    && s.next == c.i.next
    && s.thumbs == thumbs - NamesOf(c.i.hst, done)
    && Now(c, s).device == c.w0.device - ThumbPaths(thumbs, NamesOf(c.i.hst, done))
  }

  /** A clean relative path whose extension is not that of page indexes. */
  predicate BookKey(k: string) {
    RelClean(k) && Ext(Base(k)) != ".apnx"
  }

  lemma VictimOfOther(root: string, j: string, k: string)
    requires RootPath(root) && BookKey(j) && BookKey(k) && VictimOf(root, j, At(root, k))
    ensures j == k
  {
    var p := At(root, k);
    assert Base(p) == Base(k) by { DirAt(root, k); }
    assert Rerooted(root, Supplements(At(root, j)), Supplements(j)) by { SupplementsAt(root, j); }
    assert p == At(root, j);
    AtInjective(root, j, k);
  }

  /** A book is not one of the files removed with other books. */
  lemma BookNotVictim(os: OIS, root: string, done: set<string>, k: string)
    requires RootPath(root) && k !in done && BookKey(k)
    requires forall j :: j in done ==> BookKey(j)
    ensures At(root, k) !in RemovedSet(os, root, done)
  {
    if j :| j in done && VictimOf(root, j, At(root, k)) {
      VictimOfOther(root, j, k);
    }
  }

  lemma RemoveTwo(c: Ctx, used: set<string>, s: PState, R: set<string>, q0: string, q1: string)
    requires Inv(c, used, s) && SourceShape(c.i.src, c.i.cfg.source) && LocalInv(c.i.src, c.i.cfg.source, R, s.src)
    requires q0 in c.i.src ==> !c.i.src[q0].dir && q0 in c.okSrc
    requires q1 in c.i.src ==> !c.i.src[q1].dir && q1 in c.okSrc
    ensures var root := c.i.cfg.source;
            var t := RemoveIfFound(RemoveIfFound(s, q0, root), q1, root);
            && Inv(c, used, t) && LocalInv(c.i.src, root, R + (set p | p in {q0, q1} && p in c.i.src), t.src)
            && LocalOnly(s, t) && DeviceSame(c, s, t)
  {
    hide RemoveObject, RemoveDirs, Inv, LocalInv;
    var S, root := c.i.src, c.i.cfg.source;
    RemoveIfFoundInv(c, used, s, q0, R);
    var R2 := if q0 in S then R + {q0} else R;
    RemoveIfFoundInv(c, used, RemoveIfFound(s, q0, root), q1, R2);
    assert (if q1 in S then R2 + {q1} else R2) == R + (set p | p in {q0, q1} && p in S);
  }

  /** A book and two more paths, wherever they exist, are removed with the directories they empty. */
  lemma RemoveThree(c: Ctx, used: set<string>, s: PState, k: string, R: set<string>, q0: string, q1: string)
    requires Inv(c, used, s) && LocalInv(c.i.src, c.i.cfg.source, R, s.src) && k !in used && k in c.i.hst
    requires var p := c.i.hst[k].path; p in s.src && p in c.i.src && !c.i.src[p].dir && p in c.okSrc
    requires q0 in c.i.src ==> !c.i.src[q0].dir && q0 in c.okSrc
    requires q1 in c.i.src ==> !c.i.src[q1].dir && q1 in c.okSrc
    ensures var t := Local7Steps(c, s, k, q0, q1);
            && Inv(c, used + {k}, t)
            && LocalInv(c.i.src, c.i.cfg.source, R + (set p | p in {c.i.hst[k].path, q0, q1} && p in c.i.src), t.src)
            && LocalOnly(s, t) && DeviceSame(c, s, t)
  {
    hide RemoveObject, RemoveDirs, RemoveIfFound, LocalInv, SourceShape, CtxOK, Good, Reasons, Objects, WorldOK;
    SourceIsTree(c);
    var obj := c.i.hst[k];
    RemoveObjectInv(c, used, used + {k}, s, obj, R);
    RemoveTwo(c, used + {k}, RemoveObject(s, obj, c.i.cfg.source), R + {obj.path}, q0, q1);
    assert R + {obj.path} + (set p | p in {q0, q1} && p in c.i.src)
        == R + (set p | p in {obj.path, q0, q1} && p in c.i.src);
  }

  ghost function Local7Steps(c: Ctx, s: PState, k: string, q0: string, q1: string): PState
    requires k in c.i.hst
  {
    RemoveIfFound(RemoveIfFound(RemoveObject(s, c.i.hst[k], c.i.cfg.source), q0, c.i.cfg.source), q1, c.i.cfg.source)
  }

  lemma VictimsThree(os: OIS, root: string, k: string, q0: string, q1: string)
    requires Supplements(At(root, k)) == [q0, q1]
    ensures VictimsIn(os, root, k) == set p | p in {At(root, k), q0, q1} && p in os
  {
  }

  lemma SupplementPair(p: string) returns (q0: string, q1: string)
    ensures Supplements(p) == [q0, q1]
  {
    q0, q1 := Supplements(p)[0], Supplements(p)[1];
  }

  lemma Step7Unfold(c: Ctx, avail: bool, s: PState, k: string, q0: string, q1: string)
    requires k in c.i.hst && Supplements(c.i.hst[k].path) == [q0, q1]
    ensures Step7(c.i.cfg, avail, s, c.i.hst[k]) == RemoveThumb(Local7Steps(c, s, k, q0, q1), avail, c.i.hst[k].thumb)
  {
  }

  lemma BookStillThere(c: Ctx, thumbs: OIS, done: set<string>, s: PState, k: string)
    requires CtxOK(c) && LocalInv(c.i.src, c.i.cfg.source, RemovedSet(c.i.src, c.i.cfg.source, done), s.src)
    requires k !in done && Case7OK(c, thumbs, done) && Case7At(c, thumbs, k)
    ensures At(c.i.cfg.source, k) in s.src && !c.i.src[At(c.i.cfg.source, k)].dir
  {
    var S, root := c.i.src, c.i.cfg.source;
    forall j | j in done ensures BookKey(j) { assert Case7At(c, thumbs, j); }
    BookNotVictim(S, root, done, k);
    assert FileKept(S, RemovedSet(S, root, done), s.src, At(root, k));
    assert At(root, k) in VictimsIn(S, root, k);
  }

  lemma Step7LocalState(c: Ctx, thumbs: OIS, done: set<string>, s: PState, k: string, q0: string, q1: string)
    requires Inv(c, done, s) && LocalInv(c.i.src, c.i.cfg.source, RemovedSet(c.i.src, c.i.cfg.source, done), s.src)
    requires k !in done && Case7OK(c, thumbs, done) && Case7At(c, thumbs, k)
    requires Supplements(At(c.i.cfg.source, k)) == [q0, q1]
    ensures var t := Local7Steps(c, s, k, q0, q1);
            && Inv(c, done + {k}, t)
            && LocalInv(c.i.src, c.i.cfg.source, RemovedSet(c.i.src, c.i.cfg.source, done + {k}), t.src)
            && LocalOnly(s, t) && DeviceSame(c, s, t)
  {
    var S, root := c.i.src, c.i.cfg.source;
    BookStillThere(c, thumbs, done, s, k);
    VictimsThree(S, root, k, q0, q1);
    assert forall p :: p in {At(root, k), q0, q1} && p in S ==> p in VictimsIn(S, root, k);
    RemoveThree(c, done, s, k, RemovedSet(S, root, done), q0, q1);
    RemovedSnoc(S, root, done, k);
  }

  lemma LocalOnlyKeeps(c: Ctx, s: PState, t: PState)
    requires LocalOnly(s, t) && ThumbsLive(s) && Untouched(c, s)
    ensures ThumbsLive(t) && Untouched(c, t)
  {
    forall m ensures ThumbLive(t, m) { assert ThumbLive(s, m); }
  }

  lemma Step7State(c: Ctx, avail: bool, thumbs: OIS, done: set<string>, s: PState, k: string)
    requires State7(c, avail, thumbs, done, s) && k !in done
    requires Case7OK(c, thumbs, done) && Case7At(c, thumbs, k)
    ensures State7(c, avail, thumbs, done + {k}, Step7(c.i.cfg, avail, s, c.i.hst[k]))
  {
    hide Inv, Untouched, LocalInv, RemovedSet, Supplements, Local7Steps, ThumbPaths, RemoveThumb, Step7, Exec,
         ThumbsLive, VictimsIn, BookKey, NamesOf;
    var n := c.i.hst[k].thumb;
    var q0, q1 := SupplementPair(At(c.i.cfg.source, k));
    Step7Unfold(c, avail, s, k, q0, q1);
    Step7LocalState(c, thumbs, done, s, k, q0, q1);
    var t := Local7Steps(c, s, k, q0, q1);
    LocalOnlyKeeps(c, s, t);
    RemoveThumbInv(c, done + {k}, t, avail, n);
    NamesSnoc(c.i.hst, done, k);
    ThumbPathsSnoc(thumbs, NamesOf(c.i.hst, done), n);
    ThumbDevice(c.w0.device, thumbs, NamesOf(c.i.hst, done), n);
  }

  /** Dropping one more thumbnail, gone already or not. */
  lemma ThumbDevice(d: Tree, thumbs: OIS, names: set<string>, n: string)
    ensures (thumbs - names) - {n} == thumbs - (names + {n})
    ensures (d - ThumbPaths(thumbs, names)) - (if n in thumbs - names then {At(THUMBNAIL_FOLDER, n)} else {})
            == d - ThumbPaths(thumbs, names + {n})
  {
    ThumbPathsSnoc(thumbs, names, n);
    if n in names && n in thumbs { assert At(THUMBNAIL_FOLDER, n) in ThumbPaths(thumbs, names); }
  }

  function Keys(order: seq<string>): set<string> { set k | k in order }

  lemma KeysSnoc(order: seq<string>)
    requires order != []
    ensures Keys(order) == Keys(order[..|order| - 1]) + {order[|order| - 1]}
  {
    assert order == order[..|order| - 1] + [order[|order| - 1]];
  }

  predicate NoRepeat(order: seq<string>) {
    forall i, j :: 0 <= i < j < |order| ==> order[i] != order[j]
  }

  /** The loop for case 7, in any order. */
  lemma {:induction false} Loop7State(c: Ctx, avail: bool, thumbs: OIS, s: PState, objs: OIS, order: seq<string>)
    requires State7(c, avail, thumbs, {}, s) && NoRepeat(order)
    requires forall k :: k in order ==> k in objs && k in c.i.hst && objs[k] == c.i.hst[k]
    requires Case7OK(c, thumbs, Keys(order))
    ensures State7(c, avail, thumbs, Keys(order), Loop7(c.i.cfg, avail, s, objs, order))
    decreases |order|
  {
    hide State7, Step7, Case7At;
    if order == [] {
      assert Keys(order) == {};
    } else {
      var pre, k := order[..|order| - 1], order[|order| - 1];
      KeysSnoc(order);
      assert Case7At(c, thumbs, k);
      assert k !in Keys(pre);
      Loop7State(c, avail, thumbs, s, objs, pre);
      Step7State(c, avail, thumbs, Keys(pre), Loop7(c.i.cfg, avail, s, objs, pre), k);
    }
  }

  lemma StartUntouched(c: Ctx, thumbs: OIS)
    requires CtxOK(c)
    ensures Untouched(c, c.i.Start(thumbs)) && c.i.Start(thumbs).src == c.i.src
  {
    hide WorldOK, LocalView, DeviceView, HistoryView, OwnObjects, NoRawKeys;
  }

  lemma State7Start(c: Ctx, avail: bool, thumbs: OIS)
    requires CtxOK(c) && ThumbsLive(c.i.Start(thumbs)) && (avail || thumbs == map[])
    ensures State7(c, avail, thumbs, {}, c.i.Start(thumbs))
  {
    hide Inv, CtxOK, ThumbsLive, RawFree, AllGone;
    var s, S, root := c.i.Start(thumbs), c.i.src, c.i.cfg.source;
    InvStart(c, thumbs);
    StartUntouched(c, thumbs);
    SourceIsTree(c);
    assert RemovedSet(S, root, {}) == {} && NamesOf(c.i.hst, {}) == {} && ThumbPaths(thumbs, {}) == {};
    forall k ensures DirKept(S, root, {}, S, k) { assert SourceAt(S, root, k); }
    assert c.w0.device - {} == c.w0.device && thumbs - {} == thumbs;
  }
}
