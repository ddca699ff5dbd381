/** Runs over an MTP device start from a device that holds each path once: when a run leaves it like that. */
module Once {
  import opened Paths
  import opened InfoSet
  import opened Plan
  import opened FileSystem
  import opened WellFormed
  import opened Invariant
  import opened Removals
  import opened DeviceRemovals
  import opened CopyLoop
  import opened Setting
  import opened Decisions
  import opened Outcomes
  import opened Theorems
  import opened Counting
  import opened OrderFree
  import opened Actions
  import opened Sharing
  import opened Binding

  // ---------------------------------------------------------------------------------- along the run

  /** No action copies over a file of the device. */
  ghost predicate NoneOver(w: World, acts: seq<Action>) {
    forall p :: Overs(w, acts, Dst, p) == 0
  }

  predicate CopiesOver(v: World, a: Action) {
    a.actor.Dst? && a.kind.Copy? && a.obj.path in v.device
  }

  lemma NoneOverSnoc(w: World, acts: seq<Action>, a: Action)
    ensures NoneOver(w, acts + [a]) <==> NoneOver(w, acts) && !CopiesOver(Exec(w, acts).world, a)
  {
    hide Exec;
    var t := acts + [a];
    assert t[..|acts|] == acts;
    assert forall p :: Overs(w, t, Dst, p)
                    == Overs(w, acts, Dst, p) + if p == a.obj.path && CopiesOver(Exec(w, acts).world, a) then 1 else 0;
    if NoneOver(w, t) { assert Overs(w, t, Dst, a.obj.path) == 0; }
  }

  lemma OnceAdded(st: Store, t: Tree, x: nat, p: string, n: Node)
    requires StoreIs(st, t) && x !in st
    ensures EachOnce(st[x := Entry(p, n)]) <==> EachOnce(st) && p !in t
  {
    var u := st[x := Entry(p, n)];
    if p in t {
      assert StoredAt(st, p);
      var y :| y in st && st[y].path == p;
      assert u[y].path == u[x].path && x != y;
    }
    if EachOnce(u) {
      forall y, z | y in st && z in st && st[y].path == st[z].path ensures y == z { assert u[y].path == u[z].path; }
    }
  }

  lemma OnceRemoved(st: Store, x: nat)
    requires x in st && (forall y :: y in st && st[y].path == st[x].path ==> y == x)
    ensures EachOnce(st - {x}) <==> EachOnce(st)
  {
    var u := st - {x};
    if EachOnce(u) {
      forall y, z | y in st && z in st && st[y].path == st[z].path ensures y == z {
        if y != x && z != x { assert u[y].path == u[z].path; }
      }
    }
  }

  /** One more call keeps that each path is there once, unless it copies over a file, and never brings it back. */
  lemma OnceStep(i: Inputs, c: Ctx, w: World, s: PState, ids: seq<nat>, n: nat, m: Mtp)
    requires PlanActs(i, c, w, s) && n < |s.acts| && |s.acts| <= |ids| && Bound(i, w, s.acts, ids, n, m)
    requires HolderKnown(i) && CanCall(s.dst, m, s.acts[n])
    ensures EachOnce(Call(s.dst, m, s.acts[n], ids[n]).store)
            <==> EachOnce(m.store) && !CopiesOver(Exec(w, s.acts[..n]).world, s.acts[n])
  {
    hide PlanActs, Dir, Exec, StoreIs, AliveHeld, DeadGone, OnceAt, OneId, EachOnce, ParentKnown, RemovedBefore;
    hide HasFolder, Created, Readable;
    var a := s.acts[n];
    BoundStep(i, c, w, s, ids, n, m);
    if a.actor.Dst? {
      if a.kind.Remove? {
        RemovedKnown(i, c, w, s, n);
        assert AliveHeld(i, s.acts[..n], m, a.obj);
        HeldAt(i, s.acts[..n], m, a.obj);
        OnlyEntry(i, c, w, s, ids, n, m, m.oids[a.obj.id]);
        OnceRemoved(m.store, m.oids[a.obj.id]);
      } else {
        ParentIsKnown(i, c, w, s, n);
        MakeIs(i, c, w, s, ids, n, m);
        OnceAdded(m.store, Exec(w, s.acts[..n]).world.device, ids[n], a.obj.path, NewNode(m, a));
        MadeWhere(i, c, w, s, n);
      }
    }
  }

  lemma HeldAt(i: Inputs, acts: seq<Action>, m: Mtp, o: Obj)
    requires Alive(i, acts, o) && AliveHeld(i, acts, m, o)
    ensures o.id in m.oids && m.oids[o.id] in m.store && m.store[m.oids[o.id]].path == o.path
  {
    hide Alive;
  }

  lemma {:induction false} OnceFollows(i: Inputs, c: Ctx, w: World, s: PState, m: Mtp, ids: seq<nat>, n: nat)
    requires PlanActs(i, c, w, s) && n <= |s.acts| <= |ids| && Bound(i, w, s.acts, ids, 0, m) && HolderKnown(i)
    requires EachOnce(m.store) && forall j :: 0 <= j < n ==> !FailsAt(s.acts, j)
    ensures EachOnce(MtpExec(s.dst, m, s.acts[..n], ids).mtp.store) <==> NoneOver(w, s.acts[..n])
    decreases n
  {
    hide PlanActs, Bound, FailsAt, CanCall, Call, EachOnce, NoneOver, CopiesOver, Exec;
    if n == 0 {
      assert s.acts[..0] == [];
      assert NoneOver(w, []) by { NothingOver(w); }
    } else {
      var pre := s.acts[..n - 1];
      assert s.acts[..n][..n - 1] == pre && s.acts[..n] == pre + [s.acts[n - 1]];
      OnceFollows(i, c, w, s, m, ids, n - 1);
      MtpFollows(i, c, w, s, m, ids, n - 1);
      var r := MtpExec(s.dst, m, pre, ids);
      BoundStep(i, c, w, s, ids, n - 1, r.mtp);
      OnceStep(i, c, w, s, ids, n - 1, r.mtp);
      NoneOverSnoc(w, pre, s.acts[n - 1]);
    }
  }

  lemma NothingOver(w: World)
    ensures NoneOver(w, [])
  {
  }

  // ---------------------------------------------------------------------------------- over a whole plan

  ghost predicate DoubledThumbBy(i: Inputs, j: string, k: string, n: string) {
    j in Row3(i) && k in Row3(i) && j != k && ThumbOf(i, j, n) && ThumbOf(i, k, n) && !StaysKnown(i, n)
  }

  /** The thumbnails of two copied books have the same name, and it is not the name of one that is on the device when
      the copies begin. */
  ghost predicate DoubledThumb(i: Inputs) {
    exists j, k, n :: DoubledThumbBy(i, j, k, n)
  }

  /** The thumbnail names of the plan. */
  lemma NameOf(i: Inputs, b: Subsets, w: World, n: string)
    requires RunOK(i, b, w)
    ensures n in CtxFor(i, b, w).names <==> exists k :: k in Row3(i) && ThumbOf(i, k, n)
  {
    hide RunOK, Row3, LocalBooks, Remaining, ThumbJob, RemovedSet, JobRels, ThumbPaths, FilesLeft;
    RemainingFiles(i);
    forall k | k in Row3(i)
      ensures ThumbJob(i, i.ThumbsAvailable(), Remaining(i), k) == ThumbJob(i, i.ThumbsAvailable(), i.src, k)
    {
      Row3Entry(i, b, w, Remaining(i), k);
      ThumbJobSame(i, Remaining(i), k);
    }
  }

  /** The thumbnail of a copied book is on the device after the run. */
  lemma ThumbLands(i: Inputs, b: Subsets, s: PState, w: World, k: string, n: string)
    requires RunOK(i, b, w) && IsPlan(i, b, s) && k in Row3(i) && ThumbOf(i, k, n)
    ensures At(THUMBNAIL_FOLDER, n) in Exec(w, s.acts).world.device
  {
    hide RunOK, IsPlan, Row3, CtxFor, Device6Tree, Exec, ThumbOf, Join, DirFor;
    var p, c := At(THUMBNAIL_FOLDER, n), CtxFor(i, b, w);
    CtxInputs(i, b, w);
    NameOf(i, b, w, n);
    RunParts(i, b, w);
    PictureThere(i, b, w, k, n);
    if Below(p, i.cfg.target) { ScopesApart(i.cfg, p); }
    DeviceAfterRun(i, b, s, w, p);
    assert Rel(p, THUMBNAIL_FOLDER) == n;
  }

  lemma PictureThere(i: Inputs, b: Subsets, w: World, k: string, n: string)
    requires RunOK(i, b, w) && ThumbOf(i, k, n)
    ensures Join(i.cfg.thumbDir, n) in w.pics && i.ThumbsAvailable()
  {
    hide RunOK;
    DeviceMode(i, b, w);
  }

  /** A thumbnail that does not stay known is not on the device when the copies begin. */
  lemma NotLeft(i: Inputs, b: Subsets, w: World, k: string, n: string)
    requires RunOK(i, b, w) && k in Row3(i) && ThumbOf(i, k, n) && !StaysKnown(i, n)
    ensures At(THUMBNAIL_FOLDER, n) !in Device6Tree(i, b, w)
  {
    hide RunOK, Row3, Row6, Row7, LocalBooks, NamesOf, WorldOK, ViewsOK, StaysKnown, ThumbNameOK, ThumbOf;
    var p := At(THUMBNAIL_FOLDER, n);
    RunParts(i, b, w);
    KnownIs(i, b, w, k, n);
    PictureThere(i, b, w, k, n);
    Row3Local(i, k);
    LocalBookNotDir(i, k);
    assert ThumbNameOK(i.cfg, w.device, n) by { ThumbIsName(i, w, k, n); }
    ThumbLeft(i, b, w, n);
    assert Device6Tree(i, b, w).Keys <= w.device.Keys;
    assert p in w.device ==> p in i.dst by { ThumbListed(i, w, n); }
  }

  lemma ThumbIsName(i: Inputs, w: World, k: string, n: string)
    requires WorldOK(i.cfg, w) && ViewsOK(i, w) && k in LocalBooks(i) && ThumbOf(i, k, n)
    requires At(i.cfg.source, k) in i.src && LocalBooks(i)[k] == i.src[At(i.cfg.source, k)]
    ensures ThumbNameOK(i.cfg, w.device, n)
  {
    hide WorldOK, ViewsOK, LocalBooks, ThumbNameOK;
    NameOK(i, w, k);
  }

  lemma ThumbListed(i: Inputs, w: World, n: string)
    requires ViewsOK(i, w)
    ensures At(THUMBNAIL_FOLDER, n) in w.device ==> At(THUMBNAIL_FOLDER, n) in i.dst
  {
    assert DeviceObjectAt(i.cfg, i.dst, w.device, At(THUMBNAIL_FOLDER, n));
  }

  /** How often a thumbnail of the plan is copied over itself: for every copy but the first, unless it is known and
      removed before each copy. */
  lemma OversAre(i: Inputs, b: Subsets, s: PState, w: World, k: string, n: string)
    requires RunOK(i, b, w) && IsPlan(i, b, s) && k in Row3(i) && ThumbOf(i, k, n)
    ensures var p := At(THUMBNAIL_FOLDER, n);
            Overs(w, s.acts, Dst, p) == if StaysKnown(i, n) then 0 else Count(s.acts, Dst, Copy, p) - 1
  {
    hide RunOK, IsPlan, Row3, Row6, Row7, NamesOf, Device6Tree, Exec, ThumbOf, StaysKnown, CtxFor, DirFor, Overs, Count;
    hide FinalState, IsOrders, Occupied, At;
    var p := At(THUMBNAIL_FOLDER, n);
    var o := PlanOrders(i, b, s);
    KnownIs(i, b, w, k, n);
    if !StaysKnown(i, n) { NotLeft(i, b, w, k, n); }
    ThumbLands(i, b, s, w, k, n);
    ThumbRemoves(i, b, o, w, n);
    DirectoriesMadeOnce(i, b, s, w, p);
    CtxInputs(i, b, w);
    CtxForOK(i, b, w);
    NotDirThumb(CtxFor(i, b, w), n);
    NotMail(i, b, w);
    PlanRunsAndPredicts(i, b, s, w);
    Conservation(w, s.acts, Dst, p);
    OccupiedIs(Device6Tree(i, b, w), p);
    OccupiedIs(Exec(w, s.acts).world.device, p);
  }

  /** A plan copies over files exactly when two books share a thumbnail that is not there before. */
  lemma OverIff(i: Inputs, b: Subsets, s: PState, w: World)
    requires RunOK(i, b, w) && IsPlan(i, b, s)
    ensures NoneOver(w, s.acts) <==> !DoubledThumb(i)
  {
    hide RunOK, IsPlan, Row3, ThumbOf, StaysKnown, Overs, Count, FinalState, IsOrders, CtxFor, Exec, PlannedCopies;
    var o := PlanOrders(i, b, s);
    if j, k, n :| DoubledThumbBy(i, j, k, n) {
      ThumbPlanned(i, b, w, j, n);
      ThumbPlanned(i, b, w, k, n);
      CopiedForTwo(i, b, o, w, At(THUMBNAIL_FOLDER, n), j, k);
      OversAre(i, b, s, w, k, n);
      assert Overs(w, s.acts, Dst, At(THUMBNAIL_FOLDER, n)) > 0;
    } else {
      forall p ensures Overs(w, s.acts, Dst, p) == 0 { OverAt(i, b, s, o, w, p); }
    }
  }

  lemma OverAt(i: Inputs, b: Subsets, s: PState, o: Orders, w: World, p: string)
    requires RunOK(i, b, w) && IsPlan(i, b, s) && IsOrders(i, b, o) && s == FinalState(i, b, o) && !DoubledThumb(i)
    ensures Overs(w, s.acts, Dst, p) == 0
  {
    hide RunOK, IsPlan, Row3, ThumbOf, StaysKnown, Overs, Count, FinalState, IsOrders, CtxFor, Exec, PlannedCopies,
         Ended, Reasons, FreshCopies, CtxOK;
    var c := CtxFor(i, b, w);
    CtxInputs(i, b, w);
    if Below(p, THUMBNAIL_FOLDER) && Rel(p, THUMBNAIL_FOLDER) in c.names {
      var n := Rel(p, THUMBNAIL_FOLDER);
      AtRel(p, THUMBNAIL_FOLDER);
      NameOf(i, b, w, n);
      var k :| k in Row3(i) && ThumbOf(i, k, n);
      OversAre(i, b, s, w, k, n);
      if Count(s.acts, Dst, Copy, p) >= 2 {
        var x, y := TwoCopied(i, b, o, w, p);
        ThumbPlanned(i, b, w, x, n);
        ThumbPlanned(i, b, w, y, n);
        assert !DoubledThumbBy(i, x, y, n);
      }
    } else {
      CtxForOK(i, b, w);
      PlanEnds(i, b, s, w);
      EndedHasReasons(i, b, w, s);
      NoOversElsewhere(c, s.acts, p);
    }
  }

  // ---------------------------------------------------------------------------------- the run

  /** After a run over an MTP device each path is there once if and only if no action that was done copied over a file;
      after a complete run, if and only if no two copied books share a thumbnail that is not on the device when the
      copies begin. */
  lemma OnceAfterRun(i: Inputs, b: Subsets, s: PState, w: World, m: Mtp, ids: seq<nat>)
    requires RunOK(i, b, w) && IsPlan(i, b, s) && HolderListed(i)
    requires Plugged(i, w, m) && NewIds(m, ids) && |s.acts| <= |ids|
    ensures var r := MtpExec(s.dst, m, s.acts, ids);
            && (EachOnce(r.mtp.store) <==> NoneOver(w, s.acts[..r.done]))
            && (!r.failed ==> (EachOnce(r.mtp.store) <==> !DoubledThumb(i)))
  {
    hide RunOK, IsPlan, Exec, NewIds, PlanActs, StoreIs, FailsAt, CtxFor, Dir, MtpExec, CanCall, Call, EachOnce,
         NoneOver, DoubledThumb, Bound, FreshIds;
    var c := CtxFor(i, b, w);
    assert s.acts[..|s.acts|] == s.acts;
    EndedActs(i, b, s, w);
    PlanClean(i, c, w, s);
    BoundStart(i, w, s.acts, ids, m);
    RunParts(i, b, w);
    if Dir(i.cfg.target) != "." { HolderIs(i, w); }
    OverIff(i, b, s, w);
    if n :| FailsAt(s.acts, n) {
      FailsInside(s.acts, n);
      var k := FirstFail(s.acts, n);
      MtpFollows(i, c, w, s, m, ids, k);
      BoundStep(i, c, w, s, ids, k, MtpExec(s.dst, m, s.acts[..k], ids).mtp);
      MtpStops(s.dst, m, s.acts, ids, k);
      OnceFollows(i, c, w, s, m, ids, k);
    } else {
      MtpFollows(i, c, w, s, m, ids, |s.acts|);
      OnceFollows(i, c, w, s, m, ids, |s.acts|);
    }
  }
}
