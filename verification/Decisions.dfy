/** The planner acts on exactly the rows of the decision table, and the state it ends in. */
module Decisions {
  import opened Paths
  import opened InfoSet
  import opened Plan
  import opened FileSystem
  import opened WellFormed
  import opened Invariant
  import opened LocalPhase
  import opened Removals
  import opened DeviceRemovals
  import opened CopyLoop
  import opened Setting

  /** The source without the files that go with the books of row 7. */
  ghost function Remaining(i: Inputs): OIS {
    i.src - RemovedSet(i.src, i.cfg.source, Row7(i))
  }

  /** The reasons for the actions of a run. */
  ghost function CtxFor(i: Inputs, b: Subsets, w: World): Ctx {
    Ctx(i, w, RemovedSet(i.src, i.cfg.source, Row7(i)),
        RemovedSet(i.dst, i.cfg.target, Row6(i)) + ThumbPaths(b.thumbs, NamesOf(i.hst, Row7(i) + Row6(i))),
        JobRels(Remaining(i), i.cfg.source, Row3(i)),
        JobNames(i, i.ThumbsAvailable(), Remaining(i), Row3(i)))
  }

  /** Under its root, the files that go with a book are below the root, and the page indexes among them are files. */
  lemma VictimBelow(root: string, k: string, p: string)
    requires RootPath(root) && BookKey(k) && VictimOf(root, k, p)
    ensures Below(p, root)
  {
    hide Ext, Base, LastIndex;
    assert Rerooted(root, Supplements(At(root, k)), Supplements(k)) by { SupplementsAt(root, k); }
  }

  lemma LocalVictim(i: Inputs, w: World, k: string, p: string)
    requires WorldOK(i.cfg, w) && ViewsOK(i, w) && k in LocalBooks(i) && VictimOf(i.cfg.source, k, p) && p in i.src
    ensures !i.src[p].dir && p in w.local && w.local[p].File? && Below(p, i.cfg.source)
  {
    hide Supplements, Ext, Base, LastIndex, RelClean, LocalBooks, BookKey, Below;
    RootFacts(i, w);
    LocalBookFacts(i, w, k);
    VictimBelow(i.cfg.source, k, p);
    assert SupplementAt(i.cfg, w.local, i.cfg.source, At(i.cfg.source, k), p) && LocalObject(i.src, w.local, p);
    assert p != At(i.cfg.source, k) ==> p in Supplements(At(i.cfg.source, k));
  }

  lemma DeviceVictimFacts(i: Inputs, w: World, k: string, p: string)
    requires WorldOK(i.cfg, w) && ViewsOK(i, w) && k in DeviceBooksAt(i) && k in i.hst && VictimOf(i.cfg.target, k, p)
    requires p in i.dst
    ensures !i.dst[p].dir && p in w.device && w.device[p].File? && Below(p, i.cfg.target)
  {
    hide Supplements, Ext, Base, LastIndex, RelClean, DeviceBooksAt, BookKey, Below;
    RootFacts(i, w);
    DeviceBookFacts(i, w, k);
    VictimBelow(i.cfg.target, k, p);
    assert SupplementAt(i.cfg, w.device, i.cfg.target, At(i.cfg.target, k), p)
        && DeviceObjectAt(i.cfg, i.dst, w.device, p);
    assert p != At(i.cfg.target, k) ==> p in Supplements(At(i.cfg.target, k));
  }

  lemma RelsFact(i: Inputs, w: World, src: OIS, r: string)
    requires WorldOK(i.cfg, w) && ViewsOK(i, w) && src.Keys <= i.src.Keys && r in JobRels(src, i.cfg.source, Row3(i))
    ensures RelClean(r) && At(i.cfg.source, r) in w.local && w.local[At(i.cfg.source, r)].File?
    ensures At(i.cfg.source, r) in src
  {
    var p :| p in RemovedSet(src, i.cfg.source, Row3(i)) && p in src && Below(p, i.cfg.source)
        && Rel(p, i.cfg.source) == r;
    var k :| k in Row3(i) && VictimOf(i.cfg.source, k, p);
    LocalVictim(i, w, k, p);
    AtRel(p, i.cfg.source);
    assert LocalAt(i.cfg, w.local, p);
  }

  lemma CtxInputs(i: Inputs, b: Subsets, w: World)
    ensures CtxFor(i, b, w).i == i && CtxFor(i, b, w).w0 == w
  {
  }

  lemma CtxRels(i: Inputs, b: Subsets, w: World, r: string)
    requires RunOK(i, b, w)
    ensures RelAt(CtxFor(i, b, w), r)
  {
    hide WorldOK, ViewsOK, IsSubsets, RelClean, JobNames, RemovedSet, ThumbPaths, Row3, Row7, Row6;
    var c := CtxFor(i, b, w);
    if r in c.rels { RelsFact(i, w, Remaining(i), r); }
  }

  lemma CtxNames(i: Inputs, b: Subsets, w: World, n: string)
    requires RunOK(i, b, w)
    ensures NameAt(CtxFor(i, b, w), n)
  {
    hide WorldOK, ViewsOK, IsSubsets, CleanPart, ThumbNameOK, JobRels, JobNames, RemovedSet, ThumbPaths, Row3, Row7,
         Row6;
    var c := CtxFor(i, b, w);
    if n in c.names { NamesFact(i, w, Remaining(i), n); }
  }

  lemma CtxRemovals(i: Inputs, b: Subsets, w: World, p: string)
    requires RunOK(i, b, w)
    ensures OkDstAt(CtxFor(i, b, w), p)
  {
    hide WorldOK, IsSubsets, LocalView, HistoryView, OwnObjects, NoRawKeys, JobRels, JobNames, VictimOf, LocalBooks,
         DeviceBooksAt, HistoryBooks, NamesOf, Row7;
    ThumbsStart(i, b, w);
    if p in RemovedSet(i.dst, i.cfg.target, Row6(i)) {
      var k :| k in Row6(i) && VictimOf(i.cfg.target, k, p);
      Row6Both(i, k);
      DeviceVictimFacts(i, w, k, p);
    } else if p in CtxFor(i, b, w).okDst {
      var n :| n in NamesOf(i.hst, Row7(i) + Row6(i)) && n in b.thumbs && p == At(THUMBNAIL_FOLDER, n);
      assert ThumbLive(i.Start(b.thumbs), n) && DeviceObjectAt(i.cfg, i.dst, w.device, p);
    }
  }

  lemma Row6Both(i: Inputs, k: string)
    requires k in Row6(i)
    ensures k in DeviceBooksAt(i) && k in i.hst
  {
    hide DeviceBooksAt, LocalBooks;
  }

  lemma CtxForOK(i: Inputs, b: Subsets, w: World)
    requires RunOK(i, b, w)
    ensures CtxOK(CtxFor(i, b, w))
  {
    hide WorldOK, ViewsOK, IsSubsets, CtxFor, RelAt, NameAt, OkDstAt;
    CtxInputs(i, b, w);
    var c := CtxFor(i, b, w);
    forall r ensures RelAt(c, r) { CtxRels(i, b, w, r); }
    forall n ensures NameAt(c, n) { CtxNames(i, b, w, n); }
    forall p ensures OkDstAt(c, p) { CtxRemovals(i, b, w, p); }
  }

  lemma NamesFact(i: Inputs, w: World, src: OIS, n: string)
    requires WorldOK(i.cfg, w) && ViewsOK(i, w) && n in JobNames(i, i.ThumbsAvailable(), src, Row3(i))
    requires forall p :: p in src ==> p in i.src && src[p] == i.src[p]
    ensures CleanPart(n) && ThumbNameOK(i.cfg, w.device, n) && i.ThumbsAvailable()
    ensures Join(i.cfg.thumbDir, n) in w.pics
  {
    hide Ext, Base, LastIndex, RelClean, LocalBooks, BookKey, Below, Join, Compatible, LocalTree, DeviceTree,
         SupplementsAreFiles, HistoryView, OwnObjects, LocalView, DeviceView;
    var k :| k in Row3(i) && ThumbJob(i, i.ThumbsAvailable(), src, k).Some?
        && ThumbJob(i, i.ThumbsAvailable(), src, k).value == n;
    LocalBookFacts(i, w, k);
    assert ThumbAt(i.cfg, w.local, w.device, At(i.cfg.source, k));
  }

  // ---------------------------------------------------------------------------------- case 7

  lemma HistorySubset(i: Inputs, b: Subsets, w: World)
    requires RunOK(i, b, w)
    ensures b.history == HistoryBooks(i)
    ensures forall k :: k in HistoryBooks(i) ==> k in i.hst && HistoryBooks(i)[k] == i.hst[k]
  {
  }

  lemma DeviceMode(i: Inputs, b: Subsets, w: World)
    requires RunOK(i, b, w)
    ensures !i.email && i.Start(b.thumbs).dst == i.dst && i.dst.Keys <= w.device.Keys && i.pics == w.pics.Keys
  {
  }

  lemma NoRawHistory(i: Inputs, b: Subsets, w: World, k: string)
    requires RunOK(i, b, w) && !i.TargetExists()
    ensures k in HistoryBooks(i) || k in LocalBooks(i) ==> k !in i.dst
    ensures DeviceBooksAt(i) == map[]
  {
    hide WorldOK, LocalView, DeviceView, HistoryView, OwnObjects, IsSubsets, BookKey, Ext, Base, Below;
    MissingTarget(i, b, w);
    DeviceMode(i, b, w);
    assert RawKeyAt(i, k);
  }

  lemma BookSomewhere(i: Inputs, k: string)
    requires k in HistoryBooks(i) || k in LocalBooks(i)
    ensures !NoBookAt(i, k)
  {
    hide Ext;
  }

  /** Seen from the history and from the local books, the planner's device books are the books under the target, in
      every state it reaches before anything is created. */
  lemma DeviceBooksSeen(i: Inputs, b: Subsets, w: World, s: PState)
    requires RunOK(i, b, w) && s.dst.Keys <= i.dst.Keys
    ensures forall k :: k in HistoryBooks(i) || k in LocalBooks(i) ==>
              (k in DeviceBooks(i, b, s) <==> k in DeviceBooksAt(i))
    ensures forall k :: k in HistoryBooks(i) && k in DeviceBooks(i, b, s) && k in DeviceBooksAt(i) ==>
              DeviceBooks(i, b, s)[k] == DeviceBooksAt(i)[k]
  {
    hide RunOK, LocalBooks, DeviceBooksAt;
    if i.TargetExists() {
      forall k | k in HistoryBooks(i) || k in LocalBooks(i)
        ensures (k in b.device <==> k in DeviceBooksAt(i)) && (k in b.device ==> b.device[k] == DeviceBooksAt(i)[k])
      {
        BookSomewhere(i, k);
        DeviceSubset(i, b, w, k);
      }
    } else {
      forall k | k in HistoryBooks(i) || k in LocalBooks(i) ensures k !in i.dst && k !in DeviceBooksAt(i) {
        NoRawHistory(i, b, w, k);
      }
    }
  }

  ghost predicate InRow7(i: Inputs, k: string) {
    k in LocalBooks(i) && k in HistoryBooks(i) && k !in DeviceBooksAt(i)
  }

  lemma Objs7Keys(i: Inputs, b: Subsets, w: World)
    requires RunOK(i, b, w)
    ensures forall k :: k in Objs7(i, b) <==> InRow7(i, k)
    ensures forall k :: k in Objs7(i, b) ==> k in i.hst && Objs7(i, b)[k] == i.hst[k]
  {
    hide LocalBooks, HistoryBooks, DeviceBooksAt, DeviceBooks, RunOK, Intersect, Subtract;
    DeviceMode(i, b, w);
    LocalSubset(i, b, w);
    HistorySubset(i, b, w);
    DeviceBooksSeen(i, b, w, i.Start(b.thumbs));
    SubtractIntersect(b.history, DeviceBooks(i, b, i.Start(b.thumbs)), b.local);
  }

  lemma Row7Are(i: Inputs, k: string)
    ensures k in Row7(i) <==> !i.ignoreRemovals && InRow7(i, k)
  {
    hide LocalBooks, HistoryBooks, DeviceBooksAt;
  }

  lemma Row7Objs(i: Inputs, b: Subsets, w: World)
    requires RunOK(i, b, w)
    ensures forall k :: k in Row7(i) <==> !i.ignoreRemovals && k in Objs7(i, b)
  {
    hide RunOK, Row7, Objs7, InRow7;
    Objs7Keys(i, b, w);
    forall k ensures k in Row7(i) <==> !i.ignoreRemovals && k in Objs7(i, b) { Row7Are(i, k); }
  }

  lemma EmptyMap(m: OIS)
    ensures m == map[] <==> m.Keys == {}
  {
    if m.Keys == {} { assert forall k :: k !in m; }
  }

  lemma Active7Is(i: Inputs, b: Subsets, w: World)
    requires RunOK(i, b, w)
    ensures Active7(i, b) ==> Objs7(i, b).Keys == Row7(i)
    ensures !Active7(i, b) ==> Row7(i) == {}
  {
    hide RunOK, Row7, Objs7;
    DeviceMode(i, b, w);
    Row7Objs(i, b, w);
    EmptyMap(Objs7(i, b));
  }

  lemma Local7Is(i: Inputs, b: Subsets, w: World)
    requires RunOK(i, b, w)
    ensures forall k :: k in Local7(i, b) <==> k in LocalBooks(i) && k !in Row7(i)
    ensures forall k :: k in Local7(i, b) ==> Local7(i, b)[k] == LocalBooks(i)[k]
  {
    hide RunOK, Row7, Objs7, LocalBooks, Active7;
    LocalSubset(i, b, w);
    Active7Is(i, b, w);
  }

  lemma Row7Book(i: Inputs, b: Subsets, w: World, k: string)
    requires RunOK(i, b, w) && k in Row7(i)
    ensures Case7At(CtxFor(i, b, w), b.thumbs, k)
  {
    var c := CtxFor(i, b, w);
    LocalBookFacts(i, w, k);
    assert HistoryAt(i.cfg, i.hst, k);
    forall p | p in VictimsIn(i.src, i.cfg.source, k) ensures !i.src[p].dir && p in c.okSrc {
      LocalVictim(i, w, k, p);
    }
    if i.hst[k].thumb in b.thumbs {
      assert k in Row7(i) + Row6(i);
    }
  }

  /** After case 7 the books of row 7 are gone locally, with their page indexes, thumbnails and emptied directories. */
  lemma After7Is(i: Inputs, b: Subsets, o: Orders, w: World)
    requires RunOK(i, b, w) && IsOrders(i, b, o)
    ensures State7(CtxFor(i, b, w), i.ThumbsAvailable(), b.thumbs, Row7(i), After7(i, b, o))
  {
    hide State7, Case7At, CtxOK, Row7, ThumbsLive, RemovedSet, JobRels, JobNames;
    var c, avail := CtxFor(i, b, w), i.ThumbsAvailable();
    DeviceMode(i, b, w);
    Active7Is(i, b, w);
    CtxForOK(i, b, w);
    ThumbsStart(i, b, w);
    State7Start(c, avail, b.thumbs);
    if Active7(i, b) { Loop7Is(i, b, o, w); }
  }

  lemma Loop7Is(i: Inputs, b: Subsets, o: Orders, w: World)
    requires RunOK(i, b, w) && Objs7(i, b).Keys == Row7(i) && IsOrder(o.o7, Row7(i)) && !i.email
    requires State7(CtxFor(i, b, w), i.ThumbsAvailable(), b.thumbs, {}, i.Start(b.thumbs))
    ensures State7(CtxFor(i, b, w), i.ThumbsAvailable(), b.thumbs, Row7(i),
              Loop7(i.cfg, i.ThumbsAvailable(), i.Start(b.thumbs), Objs7(i, b), o.o7))
  {
    hide State7, Case7At, RunOK, Objs7, Row7, InRow7;
    var c := CtxFor(i, b, w);
    Objs7Keys(i, b, w);
    assert Keys(o.o7) == Row7(i);
    forall k | k in Keys(o.o7) ensures Case7At(c, b.thumbs, k) { Row7Book(i, b, w, k); }
    Loop7State(c, i.ThumbsAvailable(), b.thumbs, i.Start(b.thumbs), Objs7(i, b), o.o7);
  }

  // ---------------------------------------------------------------------------------- case 6

  ghost predicate InRow6(i: Inputs, k: string) {
    k in HistoryBooks(i) && k in DeviceBooksAt(i) && k !in LocalBooks(i)
  }

  lemma MirrorShrinks(c: Ctx, used: set<string>, s: PState)
    requires Objects(c, used, s) && s.next == c.i.next
    ensures s.dst.Keys <= c.i.dst.Keys
  {
    forall p | p in s.dst ensures p in c.i.dst { AllOriginal(c, used, s, p); }
  }

  lemma State7Shrinks(c: Ctx, avail: bool, thumbs: OIS, done: set<string>, s: PState)
    requires State7(c, avail, thumbs, done, s)
    ensures s.dst.Keys <= c.i.dst.Keys
  {
    hide CtxOK, Good, Reasons, Objects, LocalInv, Untouched, ThumbsLive;
    MirrorShrinks(c, done, s);
  }

  /** What the rest of the plan needs to know of the state after case 7. */
  ghost predicate Ready7(i: Inputs, b: Subsets, w: World, s7: PState) {
    State7(CtxFor(i, b, w), i.ThumbsAvailable(), b.thumbs, Row7(i), s7) && s7.dst.Keys <= i.dst.Keys
  }

  lemma After7Ready(i: Inputs, b: Subsets, o: Orders, w: World)
    requires RunOK(i, b, w) && IsOrders(i, b, o)
    ensures Ready7(i, b, w, After7(i, b, o))
  {
    hide RunOK, IsOrder, After7, State7, Active7, After6, Active6, Objs3, JobRels, JobNames, RemovedSet;
    After7Is(i, b, o, w);
    State7Shrinks(CtxFor(i, b, w), i.ThumbsAvailable(), b.thumbs, Row7(i), After7(i, b, o));
  }

  lemma Row6Are(i: Inputs, k: string)
    ensures k in Row6(i) <==> InRow6(i, k)
  {
    hide LocalBooks, HistoryBooks, DeviceBooksAt;
  }

  lemma Row7NotDevice(i: Inputs, k: string)
    requires k in Row7(i)
    ensures k !in DeviceBooksAt(i) && k in LocalBooks(i) && k in HistoryBooks(i) && k !in Row6(i)
  {
    hide LocalBooks, HistoryBooks, DeviceBooksAt;
  }

  lemma Objs6Keys(i: Inputs, b: Subsets, w: World, s7: PState)
    requires RunOK(i, b, w) && s7.dst.Keys <= i.dst.Keys
    ensures forall k :: k in Objs6(i, b, s7) <==> k in Row6(i)
    ensures forall k :: k in Objs6(i, b, s7) ==> k in DeviceBooksAt(i) && Objs6(i, b, s7)[k] == DeviceBooksAt(i)[k]
    ensures forall k :: k in Objs6(i, b, s7) ==> k in i.hst && k in b.history && b.history[k] == i.hst[k]
  {
    hide RunOK, LocalBooks, HistoryBooks, DeviceBooksAt, DeviceBooks, Intersect, Subtract, Row6, InRow6, Row7, Local7;
    HistorySubset(i, b, w);
    DeviceBooksSeen(i, b, w, s7);
    SubtractIntersect(DeviceBooks(i, b, s7), Local7(i, b), b.history);
    Local7Is(i, b, w);
    forall k ensures k in Objs6(i, b, s7) <==> k in Row6(i) {
      Row6Are(i, k);
      Row6Or7(i, k);
    }
  }

  lemma Row6Or7(i: Inputs, k: string)
    ensures InRow6(i, k) <==> k in HistoryBooks(i) && k in DeviceBooksAt(i) && !(k in LocalBooks(i) && k !in Row7(i))
  {
    hide LocalBooks, HistoryBooks, DeviceBooksAt;
  }

  lemma Row6Book(i: Inputs, b: Subsets, w: World, k: string, thumbs: OIS)
    requires RunOK(i, b, w) && k in Row6(i) && thumbs.Keys <= b.thumbs.Keys
    ensures Case6At(CtxFor(i, b, w), thumbs, k)
  {
    hide BookKey, RelClean, Ext, Base, LastIndex, LocalBooks, JobRels, JobNames;
    var c := CtxFor(i, b, w);
    DeviceBookFacts(i, w, k);
    forall p | p in VictimsIn(i.dst, i.cfg.target, k) ensures DeviceVictim(c, p) {
      DeviceVictimFacts(i, w, k, p);
    }
    if i.hst[k].thumb in thumbs {
      assert k in Row7(i) + Row6(i);
    }
  }

  lemma TargetIntact7(i: Inputs, b: Subsets, w: World, s7: PState)
    requires RunOK(i, b, w) && Ready7(i, b, w, s7)
    ensures TargetIntact(CtxFor(i, b, w), Now(CtxFor(i, b, w), s7).device)
  {
    hide CtxOK, Good, Reasons, Objects, JobRels, JobNames, RemovedSet, LocalBooks, DeviceBooksAt, HistoryBooks,
         LocalInv;
    forall p | p in i.dst && Below(p, i.cfg.target) ensures p !in ThumbPaths(b.thumbs, NamesOf(i.hst, Row7(i))) {
      ScopesApart(i.cfg, p);
    }
  }

  /** The books of row 6 are gone from the device after case 6, with their page indexes and thumbnails. */
  ghost predicate Ready6(i: Inputs, b: Subsets, w: World, s7: PState, s6: PState) {
    var c := CtxFor(i, b, w);
    State6(c, i.ThumbsAvailable(), Row7(i), s7.src, s7.thumbs, Now(c, s7).device, Row6(i), s6)
  }

  lemma Active6Is(i: Inputs, b: Subsets, w: World, s7: PState)
    requires RunOK(i, b, w) && s7.dst.Keys <= i.dst.Keys
    ensures Active6(i, b, s7) ==> Objs6(i, b, s7).Keys == Row6(i)
    ensures !Active6(i, b, s7) ==> Row6(i) == {}
  {
    hide RunOK, Row6, Objs6, DeviceBooksAt;
    DeviceMode(i, b, w);
    Objs6Keys(i, b, w, s7);
    EmptyMap(Objs6(i, b, s7));
  }

  lemma Start6(i: Inputs, b: Subsets, w: World, s7: PState)
    requires RunOK(i, b, w) && Ready7(i, b, w, s7)
    ensures var c := CtxFor(i, b, w);
              State6(c, i.ThumbsAvailable(), Row7(i), s7.src, s7.thumbs, Now(c, s7).device, {}, s7)
    ensures s7.thumbs.Keys <= b.thumbs.Keys
  {
    hide RunOK, Inv, LocalInv, Row7, State6, Untouched, ThumbsLive, JobRels, JobNames, RemovedSet;
    var c := CtxFor(i, b, w);
    assert i.ThumbsAvailable() || s7.thumbs == map[];
    State6Start(c, i.ThumbsAvailable(), Row7(i), s7);
  }

  lemma Loop6Is(i: Inputs, b: Subsets, o: Orders, w: World, s7: PState)
    requires RunOK(i, b, w) && Ready7(i, b, w, s7) && Objs6(i, b, s7).Keys == Row6(i) && IsOrder(o.o6, Row6(i))
    ensures Ready6(i, b, w, s7, Loop6(i.ThumbsAvailable(), b.history, s7, Objs6(i, b, s7), o.o6))
  {
    hide RunOK, State6, Case6At, Objs6, Row6, Inv, State7, DeviceBooksAt, TargetIntact, JobRels, JobNames, RemovedSet;
    var c := CtxFor(i, b, w);
    Start6(i, b, w, s7);
    TargetIntact7(i, b, w, s7);
    Objs6Keys(i, b, w, s7);
    TargetRoot(i, b, w);
    assert Keys(o.o6) == Row6(i);
    forall k | k in Keys(o.o6) ensures Case6At(c, s7.thumbs, k) { Row6Book(i, b, w, k, s7.thumbs); }
    forall k | k in o.o6
      ensures k in Objs6(i, b, s7) && At(i.cfg.target, k) in i.dst && Objs6(i, b, s7)[k] == i.dst[At(i.cfg.target, k)]
    {
      DeviceEntry(i, b, w, k);
    }
    Loop6State(c, i.ThumbsAvailable(), Row7(i), s7.thumbs, Now(c, s7).device, s7, b.history, Objs6(i, b, s7), o.o6);
  }

  lemma TargetRoot(i: Inputs, b: Subsets, w: World)
    requires RunOK(i, b, w)
    ensures RootPath(i.cfg.target) && RootPath(i.cfg.source)
  {
    RootFacts(i, w);
  }

  lemma DeviceEntry(i: Inputs, b: Subsets, w: World, k: string)
    requires k in DeviceBooksAt(i)
    ensures At(i.cfg.target, k) in i.dst && DeviceBooksAt(i)[k] == i.dst[At(i.cfg.target, k)]
  {
  }

  lemma After6Is(i: Inputs, b: Subsets, o: Orders, w: World)
    requires RunOK(i, b, w) && IsOrders(i, b, o)
    ensures var s7 := After7(i, b, o); Ready7(i, b, w, s7) && Ready6(i, b, w, s7, After6(i, b, o, s7))
  {
    hide RunOK, Ready7, Row6, Objs6, After7, State6, Active7, Active6, IsOrder;
    var s7 := After7(i, b, o);
    After7Ready(i, b, o, w);
    assert s7.dst.Keys <= i.dst.Keys by { Ready7Keys(i, b, w, s7); }
    Active6Is(i, b, w, s7);
    Start6(i, b, w, s7);
    if Active6(i, b, s7) { Loop6Is(i, b, o, w, s7); }
  }

  lemma Ready7Keys(i: Inputs, b: Subsets, w: World, s7: PState)
    requires Ready7(i, b, w, s7)
    ensures s7.dst.Keys <= i.dst.Keys
  {
  }
}
