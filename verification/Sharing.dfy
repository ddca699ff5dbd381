/** When two actions of a plan work on one object: exactly when two copied books share a page index or a known
    thumbnail. */
module Sharing {
  import opened Paths
  import opened InfoSet
  import opened Plan
  import opened FileSystem
  import opened WellFormed
  import opened Invariant
  import opened Removals
  import opened DeviceRemovals
  import opened Copies
  import opened CopyLoop
  import opened Setting
  import opened Decisions
  import opened Outcomes
  import opened Counting
  import opened OrderFree
  import opened Actions

  /** A page index, or the book itself, that goes with both books. */
  predicate SharedBy(i: Inputs, j: string, k: string, q: string) {
    j != k && VictimOf(i.cfg.source, j, q) && VictimOf(i.cfg.source, k, q)
  }

  /** Two copied books share a file that is found in the source: the page index beside one of them is the page index
      in the folder of the other, or they differ in their extension only. */
  ghost predicate SharedPageIndex(i: Inputs) {
    exists j, k, q :: j in Row3(i) && k in Row3(i) && q in Remaining(i) && SharedBy(i, j, k, q)
  }

  predicate ThumbOf(i: Inputs, k: string, n: string) {
    ThumbJob(i, i.ThumbsAvailable(), i.src, k) == Some(n)
  }

  /** A thumbnail that is on the device and is not removed with a book. */
  ghost predicate StaysKnown(i: Inputs, n: string) {
    At(THUMBNAIL_FOLDER, n) in i.dst && n !in NamesOf(i.hst, Row7(i)) + NamesOf(i.hst, Row6(i))
  }

  ghost predicate SharedThumbBy(i: Inputs, j: string, k: string, n: string) {
    j in Row3(i) && k in Row3(i) && j != k && ThumbOf(i, j, n) && ThumbOf(i, k, n) && StaysKnown(i, n)
  }

  /** The thumbnails of two copied books have the same name, and it is the name of one that is on the device and is not
      removed with a book. */
  ghost predicate SharedThumb(i: Inputs) {
    exists j, k, n :: SharedThumbBy(i, j, k, n)
  }

  lemma IndexesDiffer(dir: string, base: string)
    ensures Join(dir, base + ".apnx") != Join(Join(dir, base + ".sdr"), base + ".apnx")
  {
    var x, y := base + ".apnx", base + ".sdr";
    var g := Join(dir, y);
    assert |g| >= |dir| + |y|;
    assert |Join(g, x)| >= |g| + |x|;
    assert |Join(dir, x)| <= |dir| + 1 + |x|;
  }

  /** The page index beside a book is not the one in its folder. */
  lemma SupplementsDiffer(p: string)
    ensures Supplements(p)[0] != Supplements(p)[1]
  {
    hide TrimSuffix, Ext, LastIndex, Join;
    var f := Base(p);
    IndexesDiffer(TrimSuffix(p[..|p| - |f|], "/"), TrimSuffix(f, Ext(f)));
  }

  /** Re-rooting is undone by enumerating: a local object copied to the device and enumerated under the target gets its
      key back, whatever subset of the device SubsetByPath builds, unless the key is the path of something beside the
      target. */
  lemma RerootedKey(cfg: Config, r: string, obj: Obj, os: OIS, sub: OIS)
    requires RootPath(cfg.target) && cfg.target != "." && r != "" && obj.path == At(cfg.source, r)
    requires (SelectedIn(os, r, cfg.target) ==> Below(r, cfg.target)) && Dest(cfg, obj) in os
    requires IsSubsetByPath(os, cfg.target, sub)
    ensures r in sub && sub[r] == os[Dest(cfg, obj)]
  {
    DestAt(cfg, r, obj);
    SubsetAt(os, cfg.target, sub, r);
  }

  /** `q` is a file that goes with the book `k`, and it is copied to `p`. */
  ghost predicate CopiedFrom(i: Inputs, k: string, q: string, p: string) {
    q in Remaining(i) && VictimOf(i.cfg.source, k, q) && Below(q, i.cfg.source)
        && p == At(i.cfg.target, Rel(q, i.cfg.source))
  }

  ghost predicate ThumbTo(i: Inputs, k: string, p: string)
    requires k in LocalBooks(i)
  {
    ThumbCopied(i.cfg, i.ThumbsAvailable(), i.pics, LocalBooks(i)[k])
        && p == Join(THUMBNAIL_FOLDER, LocalBooks(i)[k].thumb)
  }

  /** What is known of a copied book and its two page indexes. */
  ghost predicate CopiedBook(i: Inputs, k: string, q0: string, q1: string) {
    && k in LocalBooks(i) && LocalBooks(i)[k].path == At(i.cfg.source, k) && k != ""
       && At(i.cfg.source, k) in Remaining(i)
    && Supplements(At(i.cfg.source, k)) == [q0, q1]
    && q0 != q1 && q0 != At(i.cfg.source, k) && q1 != At(i.cfg.source, k)
    && RootPath(i.cfg.target)
    && Indexed(i, q0) && Indexed(i, q1)
  }

  ghost predicate Indexed(i: Inputs, q: string) {
    Below(q, i.cfg.source) && (q in Remaining(i) ==> Remaining(i)[q].path == q && q != "" && Rel(q, i.cfg.source) != "")
  }

  lemma CopiedBookIs(i: Inputs, b: Subsets, w: World, k: string) returns (q0: string, q1: string)
    requires RunOK(i, b, w) && k in Row3(i)
    ensures CopiedBook(i, k, q0, q1)
  {
    hide WorldOK, ViewsOK, RunOK, Row3, Row7, LocalBooks, Supplements, RootPath, BookKey, RelClean, Remaining, Ext,
         Base, Below, LastIndex;
    RemainingFiles(i);
    Row3Entry(i, b, w, Remaining(i), k);
    TargetRoot(i, b, w);
    q0, q1 := BookSupplements(i.cfg.source, k);
    SupplementsDiffer(At(i.cfg.source, k));
    IndexFacts(i, b, w, k, q0);
    IndexFacts(i, b, w, k, q1);
  }

  lemma IndexFacts(i: Inputs, b: Subsets, w: World, k: string, q: string)
    requires RunOK(i, b, w) && k in Row3(i) && q in Supplements(At(i.cfg.source, k)) && RootPath(i.cfg.source)
    requires BookKey(k)
    ensures Indexed(i, q) && q != At(i.cfg.source, k)
  {
    hide RunOK, Row3, Row7, LocalBooks, RelClean, Compatible, DeviceTree, RemovedSet, LocalTree, LocalView,
         DeviceView, WorldOK;
    assert VictimOf(i.cfg.source, k, q) && q != At(i.cfg.source, k) by { IndexNotBook(i.cfg.source, k, q); }
    hide Supplements, VictimOf, BookKey, Below;
    VictimBelow(i.cfg.source, k, q);
    RemainingSub(i);
    RunParts(i, b, w);
    if q in i.src { LocalEntry(i, w, q); }
  }

  lemma IndexNotBook(root: string, k: string, q: string)
    requires RootPath(root) && BookKey(k) && q in Supplements(At(root, k))
    ensures VictimOf(root, k, q) && q != At(root, k)
  {
    hide Supplements, Ext, Base, LastIndex, RootPath, Below, At;
    assert Base(At(root, k)) == Base(k) by { KeyBase(root, k); }
    assert Rerooted(root, Supplements(At(root, k)), Supplements(k)) by { KeyRerooted(root, k); }
  }

  lemma KeyBase(root: string, k: string)
    requires RootPath(root) && BookKey(k)
    ensures Base(At(root, k)) == Base(k)
  {
    DirAt(root, k);
  }

  lemma KeyRerooted(root: string, k: string)
    requires RootPath(root) && BookKey(k)
    ensures Rerooted(root, Supplements(At(root, k)), Supplements(k))
  {
    SupplementsAt(root, k);
  }

  lemma FoundIs(i: Inputs, q: string, p: string)
    requires Indexed(i, q) && RootPath(i.cfg.target)
    ensures FoundCopies(i.cfg, Remaining(i), q, p)
              == One(q in Remaining(i) && p == At(i.cfg.target, Rel(q, i.cfg.source)))
  {
    hide Remaining;
    if q in Remaining(i) {
      AtRel(q, i.cfg.source);
      DestAt(i.cfg, Rel(q, i.cfg.source), Remaining(i)[q]);
    }
  }

  lemma AtDiffer(i: Inputs, q: string, r: string)
    requires Below(q, i.cfg.source) && Below(r, i.cfg.source) && q != r
    ensures At(i.cfg.target, Rel(q, i.cfg.source)) != At(i.cfg.target, Rel(r, i.cfg.source))
  {
    AtRel(q, i.cfg.source);
    AtRel(r, i.cfg.source);
  }

  ghost predicate FromSome(i: Inputs, k: string, p: string) {
    exists q :: CopiedFrom(i, k, q, p)
  }

  lemma FromOne(i: Inputs, k: string, q0: string, q1: string, p: string)
    requires CopiedBook(i, k, q0, q1)
    ensures var pk := At(i.cfg.source, k);
            FromSome(i, k, p) <==>
              (p == At(i.cfg.target, k)
               || (q0 in Remaining(i) && p == At(i.cfg.target, Rel(q0, i.cfg.source)))
               || (q1 in Remaining(i) && p == At(i.cfg.target, Rel(q1, i.cfg.source))))
  {
    hide Remaining, Supplements, LocalBooks;
    var pk := At(i.cfg.source, k);
    assert VictimOf(i.cfg.source, k, pk) && VictimOf(i.cfg.source, k, q0) && VictimOf(i.cfg.source, k, q1);
    if p == At(i.cfg.target, k) { assert CopiedFrom(i, k, pk, p); }
    if q0 in Remaining(i) && p == At(i.cfg.target, Rel(q0, i.cfg.source)) { assert CopiedFrom(i, k, q0, p); }
    if q1 in Remaining(i) && p == At(i.cfg.target, Rel(q1, i.cfg.source)) { assert CopiedFrom(i, k, q1, p); }
  }

  lemma ThumbElsewhere(i: Inputs, b: Subsets, w: World, k: string, p: string)
    requires RunOK(i, b, w) && k in LocalBooks(i) && ThumbTo(i, k, p)
    ensures !Below(p, i.cfg.target) && p == At(THUMBNAIL_FOLDER, LocalBooks(i)[k].thumb)
  {
    hide ViewsOK, LocalBooks, Compatible, LocalTree, DeviceTree, SupplementsAreFiles, IsSubsets;
    RunParts(i, b, w);
    LocalBookFacts(i, w, k);
    assert ThumbAt(i.cfg, w.local, w.device, At(i.cfg.source, k));
    JoinThumb(LocalBooks(i)[k].thumb);
    if Below(p, i.cfg.target) { ScopesApart(i.cfg, p); }
  }

  /** A copied book is copied to a path once or not at all. */
  lemma PlannedOnce(i: Inputs, b: Subsets, w: World, k: string, p: string)
    requires RunOK(i, b, w) && k in Row3(i)
    ensures k in LocalBooks(i) && PlannedCopies(i, p, k) == One(FromSome(i, k, p) || ThumbTo(i, k, p))
  {
    hide RunOK, Row3, LocalBooks, Remaining, FoundCopies, Dest, FromSome, Supplements, RootPath, Below, Indexed;
    var q0, q1 := CopiedBookIs(i, b, w, k);
    FromOne(i, k, q0, q1, p);
    var root, pk := i.cfg.source, At(i.cfg.source, k);
    DestAt(i.cfg, k, LocalBooks(i)[k]);
    FoundIs(i, q0, p);
    FoundIs(i, q1, p);
    IndexBelow(i, q0);
    IndexBelow(i, q1);
    AtDiffer(i, q0, q1);
    AtDiffer(i, pk, q0);
    AtDiffer(i, pk, q1);
    if ThumbTo(i, k, p) { ThumbElsewhere(i, b, w, k, p); }
  }

  lemma IndexBelow(i: Inputs, q: string)
    requires Indexed(i, q)
    ensures Below(q, i.cfg.source)
  {
  }

  lemma {:induction false} SumPositive(order: seq<string>, f: string -> nat) returns (k: string)
    requires Sum(order, f) >= 1
    ensures k in order && f(k) >= 1
    decreases |order|
  {
    var last := order[|order| - 1];
    if f(last) >= 1 { k := last; } else { k := SumPositive(order[..|order| - 1], f); }
  }

  /** A sum of ones that reaches two has two terms. */
  lemma {:induction false} SumTwo(order: seq<string>, f: string -> nat) returns (j: string, k: string)
    requires NoRepeat(order) && (forall x :: x in order ==> f(x) <= 1) && Sum(order, f) >= 2
    ensures j in order && k in order && j != k && f(j) == 1 && f(k) == 1
    decreases |order|
  {
    var n := |order| - 1;
    var last := order[n];
    if f(last) == 1 {
      k := last;
      j := SumPositive(order[..n], f);
    } else {
      j, k := SumTwo(order[..n], f);
    }
  }

  lemma {:induction false} SumAtLeast(order: seq<string>, f: string -> nat, k: string)
    requires k in order
    ensures Sum(order, f) >= f(k)
    decreases |order|
  {
    var n := |order| - 1;
    assert order == order[..n] + [order[n]];
    if order[n] != k { SumAtLeast(order[..n], f, k); }
  }

  lemma {:induction false} SumAtLeastTwo(order: seq<string>, f: string -> nat, j: string, k: string)
    requires j in order && k in order && j != k
    ensures Sum(order, f) >= f(j) + f(k)
    decreases |order|
  {
    var n := |order| - 1;
    assert order == order[..n] + [order[n]];
    if order[n] == j { SumAtLeast(order[..n], f, k); }
    else if order[n] == k { SumAtLeast(order[..n], f, j); }
    else { SumAtLeastTwo(order[..n], f, j, k); }
  }

  /** If two copied books go to one path below the target, it is a file they share. */
  lemma MeetingIsSharing(i: Inputs, b: Subsets, w: World, j: string, k: string, p: string)
    requires RunOK(i, b, w) && j in Row3(i) && k in Row3(i) && j != k && !Below(p, THUMBNAIL_FOLDER)
    requires PlannedCopies(i, p, j) >= 1 && PlannedCopies(i, p, k) >= 1
    ensures SharedPageIndex(i)
  {
    hide RunOK, Row3, PlannedCopies, ThumbTo, Remaining, VictimOf, LocalBooks;
    PlannedOnce(i, b, w, j, p);
    PlannedOnce(i, b, w, k, p);
    if ThumbTo(i, j, p) { ThumbElsewhere(i, b, w, j, p); }
    if ThumbTo(i, k, p) { ThumbElsewhere(i, b, w, k, p); }
    var q :| CopiedFrom(i, j, q, p);
    var r :| CopiedFrom(i, k, r, p);
    if q != r { AtDiffer(i, q, r); }
    assert SharedBy(i, j, k, q);
  }

  lemma SharingMeets(i: Inputs, b: Subsets, w: World, j: string, k: string, q: string)
    requires RunOK(i, b, w) && j in Row3(i) && k in Row3(i) && q in Remaining(i) && SharedBy(i, j, k, q)
    ensures Below(q, i.cfg.source) && PlannedCopies(i, At(i.cfg.target, Rel(q, i.cfg.source)), j) == 1
            && PlannedCopies(i, At(i.cfg.target, Rel(q, i.cfg.source)), k) == 1
  {
    hide RunOK, Row3, PlannedCopies, ThumbTo, Remaining, VictimOf, LocalBooks, BookKey, RootPath;
    TargetRoot(i, b, w);
    RemainingFiles(i);
    Row3Entry(i, b, w, Remaining(i), j);
    VictimBelow(i.cfg.source, j, q);
    var p := At(i.cfg.target, Rel(q, i.cfg.source));
    assert CopiedFrom(i, j, q, p) && CopiedFrom(i, k, q, p);
    PlannedOnce(i, b, w, j, p);
    PlannedOnce(i, b, w, k, p);
  }

  /** What is copied into the thumbnail folder for a book is its thumbnail. */
  lemma ThumbPlanned(i: Inputs, b: Subsets, w: World, k: string, n: string)
    requires RunOK(i, b, w) && k in Row3(i)
    ensures PlannedCopies(i, At(THUMBNAIL_FOLDER, n), k) == One(ThumbOf(i, k, n))
  {
    hide RunOK, Row3, PlannedCopies, Remaining, VictimOf, LocalBooks, ThumbCopied, FromSome, At;
    var p := At(THUMBNAIL_FOLDER, n);
    PlannedOnce(i, b, w, k, p);
    NothingFrom(i, b, w, k, n);
    LocalBookNotDir(i, k);
    ThumbToOf(i, b, w, k, n);
  }

  lemma ThumbToOf(i: Inputs, b: Subsets, w: World, k: string, n: string)
    requires RunOK(i, b, w) && k in LocalBooks(i) && At(i.cfg.source, k) in i.src
    requires LocalBooks(i)[k] == i.src[At(i.cfg.source, k)]
    ensures ThumbTo(i, k, At(THUMBNAIL_FOLDER, n)) <==> ThumbOf(i, k, n)
  {
    hide RunOK, LocalBooks;
    var m := LocalBooks(i)[k].thumb;
    if m != "" {
      RunParts(i, b, w);
      BookThumb(i, w, k);
      JoinThumb(m);
      if At(THUMBNAIL_FOLDER, m) == At(THUMBNAIL_FOLDER, n) { AtInjective(THUMBNAIL_FOLDER, m, n); }
    }
  }

  lemma NothingFrom(i: Inputs, b: Subsets, w: World, k: string, n: string)
    requires RunOK(i, b, w)
    ensures !FromSome(i, k, At(THUMBNAIL_FOLDER, n))
  {
    hide RunOK, Remaining, VictimOf;
    RunParts(i, b, w);
    var p := At(THUMBNAIL_FOLDER, n);
    if FromSome(i, k, p) {
      var q :| CopiedFrom(i, k, q, p);
      ScopesApart(i.cfg, p);
    }
  }

  /** If two copied books go to one path, it is copied to twice. */
  lemma CopiedForTwo(i: Inputs, b: Subsets, o: Orders, w: World, p: string, j: string, k: string)
    requires RunOK(i, b, w) && IsOrders(i, b, o) && j in Row3(i) && k in Row3(i) && j != k
    requires PlannedCopies(i, p, j) >= 1 && PlannedCopies(i, p, k) >= 1
    ensures CopyCount(FinalState(i, b, o), p) >= 2
  {
    hide RunOK, PlannedCopies, IsOrders, FinalState, Row3;
    CopiesPlanned(i, b, o, w, p);
    assert j in Keys(o.o3) && k in Keys(o.o3);
    SumAtLeastTwo(o.o3, k => PlannedCopies(i, p, k), j, k);
  }

  lemma TwoCopied(i: Inputs, b: Subsets, o: Orders, w: World, p: string) returns (j: string, k: string)
    requires RunOK(i, b, w) && IsOrders(i, b, o) && CopyCount(FinalState(i, b, o), p) >= 2
    ensures j in Row3(i) && k in Row3(i) && j != k && PlannedCopies(i, p, j) >= 1 && PlannedCopies(i, p, k) >= 1
  {
    hide RunOK, PlannedCopies, IsOrders, FinalState, Row3;
    CopiesPlanned(i, b, o, w, p);
    var f := k => PlannedCopies(i, p, k);
    forall k | k in o.o3 ensures f(k) <= 1 { assert k in Keys(o.o3); PlannedOnce(i, b, w, k, p); }
    j, k := SumTwo(o.o3, f);
    assert j in Keys(o.o3) && k in Keys(o.o3);
  }

  /** A thumbnail of the plan is still known when the copies begin exactly when it stays known. */
  lemma KnownIs(i: Inputs, b: Subsets, w: World, k: string, n: string)
    requires RunOK(i, b, w) && k in Row3(i) && ThumbOf(i, k, n)
    ensures CleanPart(n) && (n in b.thumbs - NamesOf(i.hst, Row7(i)) - NamesOf(i.hst, Row6(i)) <==> StaysKnown(i, n))
    ensures StaysKnown(i, n) ==> At(THUMBNAIL_FOLDER, n) in w.device && At(THUMBNAIL_FOLDER, n) in Device6Tree(i, b, w)
  {
    hide RunOK, Row3, Row6, Row7, LocalBooks, NamesOf, WorldOK, ViewsOK, Device6Tree;
    RunParts(i, b, w);
    Row3Local(i, k);
    LocalBookNotDir(i, k);
    LocalBookFacts(i, w, k);
    assert ThumbNameOK(i.cfg, w.device, n) by { NameOK(i, w, k); }
    ThumbKnown(i, b, w, n);
    ThumbLeft(i, b, w, n);
    DeviceMode(i, b, w);
  }

  lemma NameOK(i: Inputs, w: World, k: string)
    requires WorldOK(i.cfg, w) && ViewsOK(i, w) && k in LocalBooks(i) && LocalBooks(i)[k].thumb != ""
    ensures ThumbNameOK(i.cfg, w.device, LocalBooks(i)[k].thumb)
  {
    hide LocalBooks, ThumbNameOK;
    LocalBookFacts(i, w, k);
    assert ThumbAt(i.cfg, w.local, w.device, At(i.cfg.source, k));
  }

  /** A thumbnail is removed twice exactly when it is shared and known. */
  lemma RemovedTwiceIsShared(i: Inputs, b: Subsets, o: Orders, w: World, n: string)
    requires RunOK(i, b, w) && IsOrders(i, b, o) && EndedObjects(i, b, w, FinalState(i, b, o))
    requires RemoveCount(FinalState(i, b, o), At(THUMBNAIL_FOLDER, n)) >= 2
    ensures SharedThumb(i)
  {
    hide RunOK, PlannedCopies, IsOrders, FinalState, Row3, Row6, Row7, NamesOf, Exec, SharesOnlyReplaced, Reasons,
         FreshCopies, Parents, CtxFor, StaysKnown, Device6Tree, ThumbOf, Occupied, At;
    var s, p := FinalState(i, b, o), At(THUMBNAIL_FOLDER, n);
    if CopyCount(s, p) == 0 {
      CtxInputs(i, b, w);
      CtxForOK(i, b, w);
      NotDirThumb(CtxFor(i, b, w), n);
      OnlyRemovals(CtxFor(i, b, w), s.acts, p);
      OccupiedIs(w.device, p);
      OccupiedIs(Exec(w, s.acts).world.device, p);
    } else {
      var k := SomeCopied(i, b, o, w, p);
      ThumbPlanned(i, b, w, k, n);
      KnownIs(i, b, w, k, n);
      ThumbRemoves(i, b, o, w, n);
      OccupiedIs(w.device, p);
      OccupiedIs(Device6Tree(i, b, w), p);
      var x, y := TwoCopied(i, b, o, w, p);
      ThumbPlanned(i, b, w, x, n);
      ThumbPlanned(i, b, w, y, n);
      assert SharedThumbBy(i, x, y, n);
    }
  }

  lemma OccupiedIs(t: Tree, p: string)
    ensures 0 <= Occupied(t, p) <= 1 && (Occupied(t, p) == 1 <==> p in t)
  {
  }

  lemma SomeCopied(i: Inputs, b: Subsets, o: Orders, w: World, p: string) returns (k: string)
    requires RunOK(i, b, w) && IsOrders(i, b, o) && CopyCount(FinalState(i, b, o), p) >= 1
    ensures k in Row3(i) && PlannedCopies(i, p, k) >= 1
  {
    hide RunOK, PlannedCopies, IsOrders, FinalState, Row3;
    CopiesPlanned(i, b, o, w, p);
    k := SumPositive(o.o3, k => PlannedCopies(i, p, k));
    assert k in Keys(o.o3);
  }

  lemma SharedIsRemovedTwice(i: Inputs, b: Subsets, o: Orders, w: World, j: string, k: string, n: string)
    requires RunOK(i, b, w) && IsOrders(i, b, o) && SharedThumbBy(i, j, k, n)
    ensures RemoveCount(FinalState(i, b, o), At(THUMBNAIL_FOLDER, n)) >= 2
  {
    hide RunOK, PlannedCopies, IsOrders, FinalState, Row3, Row6, Row7, NamesOf, StaysKnown, Device6Tree, ThumbOf,
         Occupied, At;
    var p := At(THUMBNAIL_FOLDER, n);
    ThumbPlanned(i, b, w, j, n);
    ThumbPlanned(i, b, w, k, n);
    CopiedForTwo(i, b, o, w, p, j, k);
    KnownIs(i, b, w, j, n);
    ThumbRemoves(i, b, o, w, n);
    OccupiedIs(w.device, p);
    OccupiedIs(Device6Tree(i, b, w), p);
  }

  lemma UsedAgainIsShared(i: Inputs, b: Subsets, o: Orders, w: World, p: string)
    requires RunOK(i, b, w) && IsOrders(i, b, o) && EndedObjects(i, b, w, FinalState(i, b, o))
    requires UsedAgain(FinalState(i, b, o).acts, p)
    ensures SharedPageIndex(i) || SharedThumb(i)
  {
    hide RunOK, PlannedCopies, IsOrders, FinalState, Row3, EndedObjects, SharedThumb, SharedPageIndex, Count;
    if Below(p, THUMBNAIL_FOLDER) {
      AtRel(p, THUMBNAIL_FOLDER);
      RemovedTwiceIsShared(i, b, o, w, Rel(p, THUMBNAIL_FOLDER));
    } else {
      var j, k := TwoCopied(i, b, o, w, p);
      MeetingIsSharing(i, b, w, j, k, p);
    }
  }

  lemma SharedUsesAgain(i: Inputs, b: Subsets, o: Orders, w: World)
    requires RunOK(i, b, w) && IsOrders(i, b, o) && (SharedPageIndex(i) || SharedThumb(i))
    ensures exists p :: UsedAgain(FinalState(i, b, o).acts, p)
  {
    hide RunOK, PlannedCopies, IsOrders, FinalState, Row3, SharedThumbBy, Remaining, VictimOf, Count;
    if j, k, n :| SharedThumbBy(i, j, k, n) {
      SharedIsRemovedTwice(i, b, o, w, j, k, n);
      assert UsedAgain(FinalState(i, b, o).acts, At(THUMBNAIL_FOLDER, n));
    } else {
      var j, k, q :| j in Row3(i) && k in Row3(i) && q in Remaining(i) && SharedBy(i, j, k, q);
      SharingMeets(i, b, w, j, k, q);
      var p := At(i.cfg.target, Rel(q, i.cfg.source));
      CopiedForTwo(i, b, o, w, p, j, k);
      TargetNotThumb(i, b, w, Rel(q, i.cfg.source));
      assert UsedAgain(FinalState(i, b, o).acts, p);
    }
  }

  lemma TargetNotThumb(i: Inputs, b: Subsets, w: World, r: string)
    requires RunOK(i, b, w)
    ensures !Below(At(i.cfg.target, r), THUMBNAIL_FOLDER)
  {
    hide RunOK;
    RunParts(i, b, w);
    ScopesApart(i.cfg, At(i.cfg.target, r));
  }

  /** No object is used by two actions of a plan if and only if no two copied books share a page index that is found
      in the source or a thumbnail that stays known.  So in-place changes of an object by one action are seen by another
      one exactly in that case. */
  lemma NoObjectSharedIff(i: Inputs, b: Subsets, s: PState, w: World)
    requires RunOK(i, b, w) && IsPlan(i, b, s)
    ensures SharesObject(s.acts) <==> SharedPageIndex(i) || SharedThumb(i)
  {
    hide RunOK, Ended, IsPlan, EndedObjects, SharesObject, IsOrders, FinalState, SharedPageIndex, SharedThumb,
         UsedAgain;
    var o := PlanOrders(i, b, s);
    PlanEnds(i, b, s, w);
    EndedHasObjects(i, b, w, s);
    SharingIsUsingAgain(i, b, w, s);
    if p :| UsedAgain(s.acts, p) { UsedAgainIsShared(i, b, o, w, p); }
    if SharedPageIndex(i) || SharedThumb(i) { SharedUsesAgain(i, b, o, w); }
  }
}
