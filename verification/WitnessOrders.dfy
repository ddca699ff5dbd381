/** One input that meets all hypotheses and that shows three more failures.  In the source, two directories whose
    books were removed from the device, the name of one a raw prefix of the name of the other: the order of a map
    decides which of them is left.  Beside them, two new books with one thumbnail, which is on the device: the plan
    removes it twice. And where the directory that is to hold the target is missing, the same plan stops. */
module WitnessOrders {
  import opened Paths
  import opened InfoSet
  import opened Plan
  import opened FileSystem
  import opened WellFormed
  import opened LocalPhase
  import opened Removals
  import opened Setting
  import opened Theorems
  import opened Undecided
  import opened Actions
  import opened Sharing
  import opened Stuck

  const CFG := Config("/s", "d/k", [".e"], [".j"], "c")

  const LOCAL: Tree := map["/s" := Directory, "/s/a" := Directory, "/s/ab" := Directory, "/s/a/u.e" := File("1", ""),
                           "/s/ab/v.e" := File("2", ""), "/s/p.e" := File("3", "t.j"), "/s/q.e" := File("4", "t.j")]

  const SRC: OIS := map["/s" := Obj(0, "s", "", true, "/s", "", ""),
                        "/s/a" := Obj(1, "a", "", true, "/s/a", "", ""), "/s/ab" :=
                            Obj(2, "ab", "", true, "/s/ab", "", ""),
                        "/s/a/u.e" := Obj(3, "u.e", "1", false, "/s/a/u.e", "", ""),
                        "/s/ab/v.e" := Obj(4, "v.e", "2", false, "/s/ab/v.e", "", ""),
                        "/s/p.e" := Obj(5, "p.e", "3", false, "/s/p.e", "t.j", ""),
                        "/s/q.e" := Obj(6, "q.e", "4", false, "/s/q.e", "t.j", "")]

  const HST: OIS := map["a/u.e" := Obj(10, "u.e", "1", false, "/s/a/u.e", "", ""), "ab/v.e" :=
      Obj(11, "v.e", "2", false, "/s/ab/v.e", "", "")]

  const THUMB := "system/thumbnails/t.j"

  const SYSTEM: Tree := map["system" := Directory, THUMBNAIL_FOLDER := Directory, THUMB := File("5", "")]

  const DST: OIS := map["system" := Obj(7, "system", "", true, "system", "", ""),
                        THUMBNAIL_FOLDER := Obj(8, "thumbnails", "", true, THUMBNAIL_FOLDER, "", ""),
                        THUMB := Obj(9, "t.j", "", false, THUMB, "", "")]

  const PICS: Tree := map["c/t.j" := File("6", "")]

  /** The device, with or without the directory that is to hold the target. */
  function DeviceOf(held: bool): Tree { if held then SYSTEM["d" := Directory] else SYSTEM }

  const IN := Inputs(CFG, SRC, HST, DST, {"c/t.j"}, false, false, 12)

  function Start(held: bool): World { World(LOCAL, DeviceOf(held), PICS, false, []) }

  // ---------------------------------------------------------------------------------- names

  predicate BookName(c: string) { c == "u.e" || c == "v.e" || c == "p.e" || c == "q.e" }

  predicate Name(c: string) {
    BookName(c) || c == "a" || c == "ab" || c == "d" || c == "k" || c == "system" || c == "thumbnails" || c == "t.j"
        || c == "s"
  }

  lemma Plain(c: string)
    requires Name(c)
    ensures CleanPart(c)
  {
  }

  lemma One(c: string)
    requires Name(c)
    ensures CleanPart(c) && RelClean(c) && Dir(c) == "." && Base(c) == c && RootPath(c)
  {
    hide RelClean, Split, LastIndex, Dir, Base, Name;
    Plain(c);
    NoSlash(c);
    OneClean(c);
  }

  lemma Two(d: string, c: string)
    requires RootPath(d) && Name(c)
    ensures Dir(At(d, c)) == d && Base(At(d, c)) == c && RootPath(At(d, c)) && Join(d, c) == At(d, c)
    ensures RelClean(d) ==> RelClean(At(d, c))
  {
    hide RelClean, Dir, Base, Name, Join;
    One(c);
    DirJoin(d, c);
    RelCleanJoin(d, c);
  }

  lemma ExtIs(c: string)
    requires (BookName(c) || c == "t.j") && Base(c) == c
    ensures Ext(c) == if c == "t.j" then ".j" else ".e"
  {
    hide Base;
    LastIndexUnique(c, '.', 1);
  }

  /** Page indexes end in .apnx. */
  lemma IndexEnds(p: string, q: string)
    requires q in Supplements(p)
    ensures |q| > 0 && q[|q| - 1] == 'x'
  {
    hide LastIndex, Ext, TrimSuffix;
  }

  // ---------------------------------------------------------------------------------- the source

  predicate Folder(d: string) { d == "/s" || d == "/s/a" || d == "/s/ab" }

  function Holder(p: string): string {
    if p == "/s/a/u.e" then "/s/a" else if p == "/s/ab/v.e" then "/s/ab" else "/s"
  }

  lemma KeyPaths()
    ensures At("a", "u.e") == "a/u.e" && At("ab", "v.e") == "ab/v.e"
    ensures At("/s", "a/u.e") == At("/s/a", "u.e") == "/s/a/u.e"
    ensures At("/s", "ab/v.e") == At("/s/ab", "v.e") == "/s/ab/v.e"
    ensures At("/s", "p.e") == "/s/p.e" && At("/s", "q.e") == "/s/q.e" && At("/s", "a") == "/s/a"
    ensures At("/s", "ab") == "/s/ab"
  {
  }

  lemma SourceId(p: string)
    requires p in SRC
    ensures SRC[p].id < 7
    ensures p == ["/s", "/s/a", "/s/ab", "/s/a/u.e", "/s/ab/v.e", "/s/p.e", "/s/q.e"][SRC[p].id]
    ensures SRC[p].name == ["s", "a", "ab", "u.e", "v.e", "p.e", "q.e"][SRC[p].id]
  {
  }

  lemma LocalPath(p: string)
    requires p in SRC && p != "/s"
    ensures p == At(Holder(p), SRC[p].name) && Name(SRC[p].name)
  {
    hide SRC, At;
    SourceId(p);
    KeyPaths();
  }

  lemma FolderIs(d: string)
    requires Folder(d)
    ensures RootPath(d) && d in LOCAL && LOCAL[d].Directory?
    ensures d == "/s" || (Below(d, "/s") && Name(Rel(d, "/s")))
  {
  }

  lemma AtSource(r: string)
    ensures Below(At("/s", r), "/s") && Rel(At("/s", r), "/s") == r
  {
  }

  /** The path of an entry below the source, relative to it. */
  lemma LocalRel(p: string, d: string, c: string)
    requires p == At(d, c) && Folder(d) && Name(c)
    ensures Below(p, "/s") && RelClean(Rel(p, "/s")) && Dir(p) == d && Base(p) == c
  {
    hide RelClean, Dir, Base, Name, Folder, Below, At;
    FolderIs(d);
    Two(d, c);
    One(c);
    if d == "/s" {
      AtSource(c);
    } else {
      AtRel(d, "/s");
      var e := Rel(d, "/s");
      One(e);
      RelCleanJoin(e, c);
      AtAssoc("/s", e, c);
      AtSource(At(e, c));
    }
  }

  lemma LocalEntry(p: string)
    requires p in SRC && p != "/s"
    ensures Below(p, "/s") && RelClean(Rel(p, "/s")) && Dir(p) == Holder(p) && Base(p) == SRC[p].name
  {
    hide SRC, RelClean, Dir, Base, Name, BookName, Below;
    LocalPath(p);
    LocalRel(p, Holder(p), SRC[p].name);
  }

  lemma LocalNode(p: string)
    requires p in LOCAL
    ensures p in SRC && SRC[p].path == p && (SRC[p].dir <==> LOCAL[p].Directory?)
    ensures LOCAL[p].File? ==> SRC[p].pid == LOCAL[p].content && SRC[p].thumb == LOCAL[p].thumb
  {
  }

  lemma LocalFits()
    ensures LocalTree(CFG, LOCAL)
  {
    hide SRC, RelClean, Dir, Below, Base;
    assert CFG.source == "/s" && LOCAL["/s"].Directory?;
    forall p ensures LocalAt(CFG, LOCAL, p) {
      if p in LOCAL && p != "/s" {
        LocalNode(p);
        LocalEntry(p);
        FolderIs(Holder(p));
      }
    }
  }

  lemma LocalViewFits()
    ensures LocalView(SRC, LOCAL)
  {
    hide RelClean, Dir, Base, Holder, SRC, LOCAL;
    assert SRC.Keys == LOCAL.Keys by { SameKeys(); }
    assert "/s" in SRC && SRC["/s"].name == "s" && Base("/s") == "s" by { BaseRoot(); }
    forall p ensures LocalObject(SRC, LOCAL, p) {
      if p in LOCAL {
        LocalNode(p);
        if p != "/s" { LocalEntry(p); }
      }
    }
  }

  lemma SameKeys()
    ensures SRC.Keys == LOCAL.Keys
  {
  }

  lemma BaseRoot()
    ensures Base("/s") == "s" && "/s" in SRC && SRC["/s"].name == "s"
  {
    hide LastIndex;
    LastIndexUnique("/s", '/', 0);
  }

  // ---------------------------------------------------------------------------------- the device

  lemma ConfigFits()
    ensures ConfigOK(CFG) && RelClean("d")
  {
    hide RelClean, Dir, Base, LastIndex;
    One("d");
    Two("d", "k");
    assert At("d", "k") == "d/k";
  }

  lemma SystemPaths()
    ensures RelClean("system") && Dir("system") == "." && Base("system") == "system"
    ensures RelClean(THUMBNAIL_FOLDER) && Dir(THUMBNAIL_FOLDER) == "system" && Base(THUMBNAIL_FOLDER) == "thumbnails"
    ensures RelClean(THUMB) && Dir(THUMB) == THUMBNAIL_FOLDER && Base(THUMB) == "t.j"
    ensures At(THUMBNAIL_FOLDER, "t.j") == THUMB
  {
    hide RelClean, Dir, Base, LastIndex;
    One("system");
    assert At("system", "thumbnails") == THUMBNAIL_FOLDER;
    Two("system", "thumbnails");
    assert At(THUMBNAIL_FOLDER, "t.j") == THUMB;
    Two(THUMBNAIL_FOLDER, "t.j");
  }

  lemma DeviceFits(held: bool)
    ensures DeviceTree(DeviceOf(held)) && (TargetParent(CFG, DeviceOf(held)) <==> held)
  {
    hide RelClean, Dir, Base;
    SystemPaths();
    One("d");
    One("k");
    assert At("d", "k") == "d/k";
    Two("d", "k");
    assert "d" !in SYSTEM;
    forall p ensures DeviceAt(DeviceOf(held), p) {}
  }

  lemma DeviceViewFits()
    ensures DeviceView(CFG, DST, DeviceOf(true))
  {
    hide RelClean, Dir, Base, AtOrBelow;
    SystemPaths();
    NotInScope();
    assert DST.Keys == SYSTEM.Keys;
    forall p ensures DeviceObjectAt(CFG, DST, DeviceOf(true), p) {}
  }

  lemma NotInScope()
    ensures !InScope(CFG, "d")
  {
    assert |"d"| == 1 && |"d/k"| == 3 && |THUMBNAIL_FOLDER| == 17;
  }

  /** No path of either side is that of a page index. */
  lemma NoIndexes(t: Tree, q: string)
    requires (t == LOCAL || t == DeviceOf(true)) && q in t
    ensures |q| > 0 && q[|q| - 1] != 'x'
  {
  }

  lemma IndexesFit()
    ensures SupplementsAreFiles(CFG, LOCAL, "/s") && SupplementsAreFiles(CFG, DeviceOf(true), "d/k")
    ensures CrossIndexes(CFG, LOCAL, DeviceOf(true))
  {
    hide Supplements, BookAt, Below, DeviceOf, LOCAL;
    var l, d := LOCAL, DeviceOf(true);
    forall p, q ensures SupplementAt(CFG, l, "/s", p, q) && SupplementAt(CFG, d, "d/k", p, q) { NotIndex(p, q); }
    forall k, q ensures CrossAt(CFG, l, d, k, q) {
      NotIndex(At("/s", k), q);
      NotIndex(At("d/k", k), q);
    }
  }

  lemma NotIndex(p: string, q: string)
    ensures q in Supplements(p) ==> q !in LOCAL && q !in DeviceOf(true)
  {
    hide Supplements;
    if q in Supplements(p) {
      IndexEnds(p, q);
      if q in LOCAL { NoIndexes(LOCAL, q); }
      if q in DeviceOf(true) { NoIndexes(DeviceOf(true), q); }
    }
  }

  lemma CompatibleFits()
    ensures Compatible(CFG, LOCAL, DeviceOf(true))
  {
    forall r ensures SameKind(LOCAL, At("/s", r), DeviceOf(true), At("d/k", r)) {
      assert At("d/k", r)[1] == '/' && "system"[1] == 'y' && |At("d/k", r)| > 1;
    }
  }

  lemma ThumbFits()
    ensures ThumbNameOK(CFG, DeviceOf(true), "t.j")
  {
    hide Ext, Base, Dir, RelClean;
    SystemPaths();
    One("t.j");
    ExtIs("t.j");
    forall q ensures NotHiding(DeviceOf(true), "t.j", q) {}
  }

  lemma ThumbsFit()
    ensures ThumbNamesOK(CFG, LOCAL, DeviceOf(true)) && PicsOK(CFG, PICS)
  {
    hide ThumbNameOK;
    ThumbFits();
    forall p ensures ThumbAt(CFG, LOCAL, DeviceOf(true), p) {}
    forall p ensures PicAt(CFG, PICS, p) {}
  }

  lemma WorldFits()
    ensures WorldOK(CFG, Start(true))
  {
    hide ConfigOK, LocalTree, DeviceTree, Compatible, TargetParent, SupplementsAreFiles, CrossIndexes, ThumbNamesOK,
         PicsOK;
    ConfigFits();
    LocalFits();
    DeviceFits(true);
    CompatibleFits();
    IndexesFit();
    ThumbsFit();
  }

  // ---------------------------------------------------------------------------------- what is listed

  lemma KeyIs(d: string, c: string)
    requires Name(d) && Name(c)
    ensures RelClean(At(d, c)) && Base(At(d, c)) == c
  {
    hide RelClean, Base, Dir, Name;
    One(d);
    Two(d, c);
  }

  lemma HistoryFits()
    ensures HistoryView(CFG, HST)
  {
    hide RelClean, Base, Dir;
    KeyIs("a", "u.e");
    KeyIs("ab", "v.e");
    KeyPaths();
    forall k ensures HistoryAt(CFG, HST, k) {}
  }

  lemma DeviceId(p: string)
    requires p in DST
    ensures 7 <= DST[p].id < 10
    ensures p == ["system", THUMBNAIL_FOLDER, THUMB][DST[p].id - 7] && (DST[p].dir <==> p != THUMB)
  {
  }

  lemma HistoryId(p: string)
    requires p in HST
    ensures 10 <= HST[p].id < 12
    ensures p == ["a/u.e", "ab/v.e"][HST[p].id - 10]
  {
  }

  lemma IdsFit()
    ensures OwnObjects(IN)
  {
    hide SRC, DST, HST;
    forall p | p in SRC ensures SRC[p].id < 7 { SourceId(p); }
    forall p | p in DST ensures 7 <= DST[p].id < 10 { DeviceId(p); }
    forall p | p in HST ensures 10 <= HST[p].id < 12 { HistoryId(p); }
    forall p, q | p in SRC && q in SRC && SRC[p].id == SRC[q].id ensures p == q { SourceId(p); SourceId(q); }
    forall p, q | p in DST && q in DST && DST[p].id == DST[q].id ensures p == q { DeviceId(p); DeviceId(q); }
    forall p, q | p in HST && q in HST && HST[p].id == HST[q].id ensures p == q { HistoryId(p); HistoryId(q); }
  }

  lemma DeviceKeys(k: string)
    ensures k in DST ==> k != "" && k[0] == 's' && k !in HST
  {
  }

  lemma SourceKeys(p: string)
    ensures p in SRC && |p| > 3 ==> p[3] != 's'
  {
  }

  lemma KeysFit()
    ensures NoRawKeys(IN)
  {
    hide SRC, DST, HST;
    forall k ensures RawKeyAt(IN, k) {
      if k in DST {
        DeviceKeys(k);
        SourceKeys(At("/s", k));
      }
    }
  }

  lemma DeviceDirs(k: string)
    requires k in DST
    ensures Dir(k) != "" && Dir(k)[0] != 'd'
    ensures if DST[k].dir then k == THUMBNAIL_FOLDER || |k| < |THUMBNAIL_FOLDER| else Below(k, THUMBNAIL_FOLDER)
  {
    hide Dir, DST, Base, RelClean, Below;
    SystemPaths();
    DeviceId(k);
  }

  lemma NotTarget(k: string)
    ensures !SelectedIn(DST, k, "d/k")
  {
    hide DST, Dir;
    if k in DST {
      DeviceKeys(k);
      DeviceDirs(k);
      assert "d/k"[0] == 'd';
    }
  }

  lemma InThumbs(k: string)
    requires SelectedIn(DST, k, THUMBNAIL_FOLDER)
    ensures Below(k, THUMBNAIL_FOLDER)
  {
    hide DST, Dir;
    DeviceDirs(k);
  }

  lemma ApartFits()
    ensures Apart(IN)
  {
    hide DST, SelectedIn, Below;
    forall k ensures !SelectedIn(DST, k, "d/k") { NotTarget(k); }
    forall k | SelectedIn(DST, k, THUMBNAIL_FOLDER) ensures Below(k, THUMBNAIL_FOLDER) { InThumbs(k); }
  }

  lemma ViewsFit()
    ensures ViewsOK(IN, Start(true))
  {
    hide LocalView, DeviceView, HistoryView, OwnObjects, NoRawKeys, Apart;
    LocalViewFits();
    DeviceViewFits();
    HistoryFits();
    IdsFit();
    KeysFit();
    ApartFits();
  }

  // ---------------------------------------------------------------------------------- the books

  lemma LocalBook(d: string, c: string, k: string)
    requires Folder(d) && BookName(c) && At("/s", k) == At(d, c) && At(d, c) in SRC && SRC[At(d, c)].name == c
    requires !SRC[At(d, c)].dir
    ensures k in LocalBooks(IN) && LocalBooks(IN)[k] == SRC[At("/s", k)]
  {
    hide SRC, Ext, Folder, Base;
    One(c);
    ExtIs(c);
    assert ".e" in CFG.bookExts by { assert CFG.bookExts[0] == ".e"; }
    assert k in Descend(SRC, "/s") && IsBook(CFG, SRC[At("/s", k)]);
  }

  lemma FourBooks()
    ensures {"a/u.e", "ab/v.e", "p.e", "q.e"} <= LocalBooks(IN).Keys
  {
    hide LocalBooks;
    KeyPaths();
    LocalBook("/s/a", "u.e", "a/u.e");
    LocalBook("/s/ab", "v.e", "ab/v.e");
    LocalBook("/s", "p.e", "p.e");
    LocalBook("/s", "q.e", "q.e");
  }

  lemma RecordedBooksHere()
    ensures HistoryBooks(IN).Keys == {"a/u.e", "ab/v.e"}
  {
    hide Ext, Base;
    One("u.e");
    One("v.e");
    ExtIs("u.e");
    ExtIs("v.e");
  }

  lemma NothingUnder()
    ensures DeviceBooksAt(IN) == map[]
  {
    hide DST;
    forall k ensures At("d/k", k) !in DST { DeviceKeys(At("d/k", k)); }
  }

  lemma RowsHere()
    ensures Row7(IN) == {"a/u.e", "ab/v.e"} && Row6(IN) == {} && "p.e" in Row3(IN) && "q.e" in Row3(IN)
  {
    hide LocalBooks, HistoryBooks, DeviceBooksAt;
    FourBooks();
    RecordedBooksHere();
    NothingUnder();
  }

  lemma VictimHere(k: string, p: string)
    requires p in SRC && At("/s", k) in SRC
    ensures VictimOf("/s", k, p) <==> p == At("/s", k)
  {
    hide Supplements;
    SameKeys();
    NotIndex(At("/s", k), p);
  }

  lemma TwoRemoved(os: OIS, root: string, j: string, k: string)
    requires At(root, j) in os && At(root, k) in os
    requires forall p :: p in os ==>
              (VictimOf(root, j, p) <==> p == At(root, j)) && (VictimOf(root, k, p) <==> p == At(root, k))
    ensures RemovedSet(os, root, {j, k}) == {At(root, j), At(root, k)}
  {
    hide VictimOf;
    var R := RemovedSet(os, root, {j, k});
    assert VictimOf(root, j, At(root, j)) && VictimOf(root, k, At(root, k));
    forall p ensures p in R <==> p in {At(root, j), At(root, k)} {}
  }

  lemma RemovedHere()
    ensures RemovedSet(SRC, "/s", Row7(IN)) == {"/s/a/u.e", "/s/ab/v.e"}
  {
    hide Row7, VictimOf, RemovedSet;
    RowsHere();
    KeyPaths();
    forall p | p in SRC ensures VictimOf("/s", "a/u.e", p) <==> p == At("/s", "a/u.e") { VictimHere("a/u.e", p); }
    forall p | p in SRC ensures VictimOf("/s", "ab/v.e", p) <==> p == At("/s", "ab/v.e") { VictimHere("ab/v.e", p); }
    TwoRemoved(SRC, "/s", "a/u.e", "ab/v.e");
  }

  // ---------------------------------------------------------------------------------- the directories

  lemma BelowShorter(k: string)
    requires k in SRC
    ensures Below(k, "/s/a") <==> k == "/s/a/u.e"
    ensures "/s/a" <= k && k != "/s/a" <==> k == "/s/a/u.e" || k == "/s/ab" || k == "/s/ab/v.e"
    ensures SRC[k].dir <==> Folder(k)
  {
    assert "/s/a/u.e"[..4] == "/s/ab"[..4] == "/s/ab/v.e"[..4] == "/s/a";
    assert "/s/a"[3] == 'a' && "/s/p.e"[3] == 'p' && "/s/q.e"[3] == 'q';
  }

  lemma FolderShorter(d: string)
    requires Folder(d)
    ensures "/s/a" <= d <==> d != "/s"
  {
  }

  /** What starts with the text of the shorter directory. */
  lemma SelectedShorter(k: string)
    requires k in SRC
    ensures SelectedIn(SRC, k, "/s/a") <==> k == "/s/a/u.e" || k == "/s/ab" || k == "/s/ab/v.e"
  {
    hide Dir, SRC, Base, RelClean;
    BelowShorter(k);
    if k != "/s" {
      LocalEntry(k);
      FolderShorter(Holder(k));
    }
  }

  lemma BelowHere()
    ensures Below("/s/ab/v.e", "/s/ab") && Below("/s/a", "/s") && !Below("/s/ab", "/s/a") && !Below("/s/ab/v.e", "/s/a")
  {
    assert "/s/ab/v.e"[..5] == "/s/ab" && "/s/a"[..2] == "/s" && "/s/ab"[4] == "/s/ab/v.e"[4] == 'b';
  }

  lemma GoneHere(R: set<string>)
    requires R == {"/s/a/u.e", "/s/ab/v.e"}
    ensures HasRemoved(R, "/s/a") && Gone(SRC, R, "/s/ab") && Gone(SRC, R, "/s/ab/v.e") && Gone(SRC, R, "/s/a/u.e")
  {
    BelowHere();
    BelowShorter("/s/a/u.e");
  }

  lemma SiblingHere(R: set<string>, e: string, k: string)
    requires R == {"/s/a/u.e", "/s/ab/v.e"}
    ensures SiblingGone(SRC, R, "/s/a", e, k)
  {
    hide SRC, Selected, Below, Gone;
    GoneHere(R);
    if AtOrBelow(e, "/s/a") && e in SRC && SRC[e].dir {
      BelowShorter(e);
      if k in SRC { SelectedShorter(k); }
    }
  }

  lemma UndecidedHere()
    ensures IsUndecided(SRC, "/s", RemovedSet(SRC, "/s", Row7(IN)), "/s/a")
  {
    hide Row7, RemovedSet, SelectedIn, Below, SiblingGone, HasRemoved, Gone;
    RemovedHere();
    BelowHere();
    var R := RemovedSet(SRC, "/s", Row7(IN));
    GoneHere(R);
    SelectedShorter("/s/ab");
    forall k ensures GoneBelow(SRC, R, "/s/a", k) { if k in SRC { BelowShorter(k); } }
    assert !RawBelow(SRC, "/s", "/s/a", "/s/a", "/s/ab");
    forall e, k ensures SiblingGone(SRC, R, "/s/a", e, k) { SiblingHere(R, e, k); }
  }

  // ---------------------------------------------------------------------------------- the thumbnails

  lemma ThumbOfBoth()
    ensures ThumbOf(IN, "p.e", "t.j") && ThumbOf(IN, "q.e", "t.j")
  {
    assert At("/s", "p.e") == "/s/p.e" && At("/s", "q.e") == "/s/q.e";
    assert Join("c", "t.j") == "c/t.j";
  }

  lemma SharedThumbHere()
    ensures SharedThumb(IN)
  {
    hide Row7, Row6, Row3, ThumbOf;
    RowsHere();
    ThumbOfBoth();
    SystemPaths();
    assert StaysKnown(IN, "t.j");
    assert SharedThumbBy(IN, "p.e", "q.e", "t.j");
  }

  // ---------------------------------------------------------------------------------- the runs

  lemma OpenedHere()
    ensures OpenedWorld(CFG, Start(false)) == Start(true) && DeviceTree(DeviceOf(false))
    ensures !TargetParent(CFG, DeviceOf(false))
  {
    hide DeviceTree, TargetParent;
    DeviceFits(false);
    assert Ancestors("d/k") == {"d"} by { assert "d/k"[..1] == "d"; }
    assert Opened(CFG, DeviceOf(false)) == DeviceOf(true);
  }

  /** Such an input has two plans that leave different directories, and each of its plans shares an object and stops
      without the directory above the target. */
  lemma Outcomes(i: Inputs, w: World, v: World, d: string) returns (b: Subsets, e: string, s: PState, t: PState)
    requires WorldOK(i.cfg, w) && ViewsOK(i, w) && Row3(i) != {} && SharedThumb(i)
    requires IsUndecided(i.src, i.cfg.source, RemovedSet(i.src, i.cfg.source, Row7(i)), d)
    requires OpenedWorld(i.cfg, v) == w && DeviceTree(v.device) && !TargetParent(i.cfg, v.device)
    ensures RunOK(i, b, w) && IsPlan(i, b, s) && IsPlan(i, b, t) && e in s.src && e !in t.src
    ensures SharesObject(s.acts) && !Exec(w, s.acts).failed
    ensures AlmostOK(i, b, v) && Exec(v, s.acts).failed
  {
    hide RunOK, WorldOK, ViewsOK, IsPlan, Exec, Row3, Row7, IsUndecided, RemovedSet, SharedThumb, SharesObject,
         OpenedWorld, TargetParent, DeviceTree;
    b := SomeSubsets(i, w);
    e, s, t := TwoOutcomes(i, b, w, d);
    NoObjectSharedIff(i, b, s, w);
    PlanRunsAndPredicts(i, b, s, w);
    StuckIff(i, b, s, v);
  }

  /** The input meets every hypothesis and its plans can be done to the end.  Two of them leave different directories
      in the source, the actions of a plan share an object, and where the directory `d` is missing the run stops. */
  lemma OrderMatters() returns (b: Subsets, e: string, s: PState, t: PState)
    ensures RunOK(IN, b, Start(true)) && IsPlan(IN, b, s) && IsPlan(IN, b, t) && e in s.src && e !in t.src
    ensures SharesObject(s.acts) && !Exec(Start(true), s.acts).failed
    ensures AlmostOK(IN, b, Start(false)) && Exec(Start(false), s.acts).failed
  {
    hide WorldOK, ViewsOK, RunOK, IsPlan, Exec, Row3, Row7, IsUndecided, RemovedSet, SharedThumb, SharesObject,
         OpenedWorld, TargetParent, DeviceTree, AlmostOK;
    WorldFits();
    ViewsFit();
    UndecidedHere();
    SharedThumbHere();
    OpenedHere();
    RowsHere();
    b, e, s, t := Outcomes(IN, Start(true), Start(false), "/s/a");
  }
}
