/** Two inputs that meet all hypotheses and that a driver does not run to the end: two books that differ in their
    extension and share a page index, copied to a missing target of one component. */
module WitnessRuns {
  import opened Paths
  import opened InfoSet
  import opened Plan
  import opened FileSystem
  import opened WellFormed
  import opened Setting
  import opened Decisions
  import opened Removals
  import opened Theorems
  import opened Pruning
  import opened Sharing
  import opened Mounting
  import opened Binding

  const CFG := Config("/s", "t", [".a", ".b"], [".j"], "d")

  const LOCAL: Tree := map["/s" := Directory, "/s/x.a" := File("1", ""), "/s/x.b" := File("2", ""), "/s/x.apnx" :=
      File("3", "")]

  const SRC: OIS := map["/s" := Obj(0, "s", "", true, "/s", "", ""), "/s/x.a" :=
      Obj(1, "x.a", "1", false, "/s/x.a", "", ""),
                        "/s/x.b" := Obj(2, "x.b", "2", false, "/s/x.b", "", ""), "/s/x.apnx" :=
                            Obj(3, "x.apnx", "3", false, "/s/x.apnx", "", "")]

  /** The device is empty, or it has its system folder. */
  function DeviceTreeOf(sys: bool): Tree { if sys then map["system" := Directory] else map[] }
  function DeviceObjs(sys: bool): OIS {
    if sys then map["system" := Obj(4, "system", "", true, "system", "", "")] else map[]
  }

  function In(sys: bool): Inputs { Inputs(CFG, SRC, map[], DeviceObjs(sys), {}, false, false, 5) }
  function Start(sys: bool): World { World(LOCAL, DeviceTreeOf(sys), map[], false, []) }

  // ---------------------------------------------------------------------------------- names

  predicate LocalName(f: string) { f == "x.a" || f == "x.b" || f == "x.apnx" }

  lemma Plain(f: string)
    requires LocalName(f)
    ensures CleanPart(f) && |f| >= 3 && f[0] == 'x' && f[1] == '.' && forall j :: 1 < j < |f| ==>
              f[j] != '.' && f[j] != '/'
  {
  }

  lemma ExtAt(f: string, i: int)
    requires 0 <= i < |f| && f[i] == '.' && (forall j :: i < j < |f| ==> f[j] != '.') && Base(f) == f
    ensures Ext(f) == f[i..]
  {
    hide Base;
    LastIndexUnique(f, '.', i);
  }

  lemma ExtName(f: string)
    requires LocalName(f)
    ensures CleanPart(f) && Base(f) == f && Ext(f) == f[1..]
  {
    hide LocalName, Base, Ext, CleanPart, LastIndex, Split;
    Plain(f);
    NoSlash(f);
    ExtAt(f, 1);
  }

  lemma StemName(f: string)
    requires LocalName(f) && Ext(f) == f[1..]
    ensures Stem(f) == "x"
  {
    Plain(f);
    hide LocalName, Ext, CleanPart;
    var e := f[1..];
    assert |e| == |f| - 1 && f[|f| - |e|..] == e && f[..|f| - |e|] == "x";
  }

  lemma Names(f: string)
    requires LocalName(f)
    ensures CleanPart(f) && RelClean(f) && Dir(At("/s", f)) == "/s" && Base(At("/s", f)) == f && Base(f) == f
    ensures Ext(f) == f[1..] && Stem(f) == "x"
  {
    hide LocalName, RelClean, Dir, Base, Ext, Stem;
    Plain(f);
    ExtName(f);
    StemName(f);
    OneClean(f);
    DirJoin("/s", f);
  }

  lemma Indexes(dir: string, f: string)
    requires LocalName(f) && RootPath(dir)
    ensures Supplements(At(dir, f)) == [At(dir, "x.apnx"), At(At(dir, "x.sdr"), "x.apnx")]
  {
    hide LocalName, RelClean, Dir, Base, Ext, Stem, Supplements;
    Names(f);
    SupplementsOf(dir, f);
    RootAt(dir, "x.sdr");
    JoinPlain(dir, "x.apnx");
    JoinPlain(dir, "x.sdr");
    JoinPlain(At(dir, "x.sdr"), "x.apnx");
    assert "x" + ".apnx" == "x.apnx" && "x" + ".sdr" == "x.sdr";
  }

  lemma Single(c: string)
    requires c == "t" || c == "system" || c == "s"
    ensures RelClean(c) && Dir(c) == "." && Base(c) == c
  {
    hide RelClean, Split, LastIndex, Dir, Base;
    NoSlash(c);
    OneClean(c);
  }

  lemma SourceName()
    ensures Base("/s") == "s" && RootPath("/s")
  {
    LastIndexUnique("/s", '/', 0);
  }

  /** Whatever is in the local tree besides the source is one of the three files. */
  lemma LocalFile(p: string) returns (f: string)
    requires p in LOCAL && p != "/s"
    ensures LocalName(f) && p == At("/s", f)
  {
    f := p[3..];
    assert p == At("/s", f);
  }

  lemma LocalBook(p: string) returns (f: string)
    requires BookAt(CFG, LOCAL, p)
    ensures LocalName(f) && f != "x.apnx" && p == At("/s", f)
  {
    f := LocalFile(p);
    Names(f);
  }

  // ---------------------------------------------------------------------------------- the hypotheses

  lemma ConfigFits()
    ensures ConfigOK(CFG)
  {
    hide RelClean, LastIndex;
    assert RelClean("t") by { Single("t"); }
    SourceName();
    ThumbsElsewhere();
  }

  lemma ThumbsElsewhere()
    ensures !AtOrBelow(THUMBNAIL_FOLDER, "t") && !(THUMBNAIL_FOLDER <= "t") && !(THUMBNAIL_FOLDER <= "system")
    ensures !("t" <= "system")
  {
    assert |THUMBNAIL_FOLDER| == 17 && THUMBNAIL_FOLDER[0] == 's' && "system"[0] == 's';
  }

  lemma LocalFits()
    ensures LocalTree(CFG, LOCAL)
  {
    hide RelClean, Dir;
    forall p ensures LocalAt(CFG, LOCAL, p) {
      if p in LOCAL && p != "/s" {
        var f := LocalFile(p);
        Names(f);
      }
    }
  }

  lemma DeviceFits(sys: bool)
    ensures DeviceTree(DeviceTreeOf(sys)) && TargetParent(CFG, DeviceTreeOf(sys))
  {
    hide RelClean, Dir;
    Single("t");
    Single("system");
    forall p ensures DeviceAt(DeviceTreeOf(sys), p) {}
  }

  lemma PairFits(sys: bool)
    ensures Compatible(CFG, LOCAL, DeviceTreeOf(sys)) && CrossIndexes(CFG, LOCAL, DeviceTreeOf(sys))
  {
    hide Supplements, Ext, Base;
    var d := DeviceTreeOf(sys);
    assert "system"[0] != 't' && |THUMBNAIL_FOLDER| > |"system"|;
    forall r ensures SameKind(LOCAL, At("/s", r), d, At("t", r)) { assert At("t", r)[0] == 't'; }
    forall k, q ensures CrossAt(CFG, LOCAL, d, k, q) {
      if BookAt(CFG, LOCAL, At("/s", k)) && q in Supplements(At("t", k)) {
        var f := LocalBook(At("/s", k));
        AtInjective("/s", k, f);
        Indexes("t", f);
        assert q[0] == 't';
      }
    }
  }

  lemma IndexesFit(sys: bool)
    ensures SupplementsAreFiles(CFG, LOCAL, "/s") && SupplementsAreFiles(CFG, DeviceTreeOf(sys), "t")
  {
    hide Supplements, Ext, Base;
    forall p, q ensures SupplementAt(CFG, LOCAL, "/s", p, q) {
      if BookAt(CFG, LOCAL, p) && q in Supplements(p) {
        var f := LocalBook(p);
        Indexes("/s", f);
        assert |q| > 2;
      }
    }
    forall p, q ensures SupplementAt(CFG, DeviceTreeOf(sys), "t", p, q) {}
  }

  lemma ThumbsFit(sys: bool)
    ensures ThumbNamesOK(CFG, LOCAL, DeviceTreeOf(sys)) && PicsOK(CFG, map[])
  {
    forall p ensures ThumbAt(CFG, LOCAL, DeviceTreeOf(sys), p) {}
    forall p ensures PicAt(CFG, map[], p) {}
  }

  lemma WorldFits(sys: bool)
    ensures WorldOK(CFG, Start(sys))
  {
    hide ConfigOK, LocalTree, DeviceTree, Compatible, TargetParent, SupplementsAreFiles, CrossIndexes, ThumbNamesOK,
         PicsOK;
    ConfigFits();
    LocalFits();
    DeviceFits(sys);
    PairFits(sys);
    IndexesFit(sys);
    ThumbsFit(sys);
  }

  /** The object that the driver lists for a file of the source. */
  lemma LocalEntryFits(f: string)
    requires LocalName(f)
    ensures var p := At("/s", f);
            && p in SRC && p in LOCAL && SRC[p].path == p && SRC[p].name == f && !SRC[p].dir && LOCAL[p].File?
            && SRC[p].pid == LOCAL[p].content && SRC[p].thumb == LOCAL[p].thumb
  {
    assert At("/s", "x.a") == "/s/x.a" && At("/s", "x.b") == "/s/x.b" && At("/s", "x.apnx") == "/s/x.apnx";
  }

  lemma LocalViewFits()
    ensures LocalView(SRC, LOCAL)
  {
    hide Base, LocalName;
    SourceName();
    assert SRC.Keys == LOCAL.Keys;
    forall p ensures LocalObject(SRC, LOCAL, p) {
      if p in LOCAL && p != "/s" {
        var f := LocalFile(p);
        Names(f);
        LocalEntryFits(f);
      }
    }
  }

  lemma DeviceViewFits(sys: bool)
    ensures DeviceView(CFG, DeviceObjs(sys), DeviceTreeOf(sys))
  {
    hide Base;
    Single("system");
    forall p ensures DeviceObjectAt(CFG, DeviceObjs(sys), DeviceTreeOf(sys), p) {}
  }

  lemma SourceId(p: string)
    requires p in SRC
    ensures p == if SRC[p].id == 0 then "/s" else if SRC[p].id == 1 then "/s/x.a"
              else if SRC[p].id == 2 then "/s/x.b" else "/s/x.apnx"
    ensures SRC[p].id < 4
  {
  }

  lemma IdsFit(sys: bool)
    ensures OwnObjects(In(sys)) && HistoryView(CFG, map[])
  {
    var src, dst := SRC, DeviceObjs(sys);
    forall p | p in src ensures src[p].id < 4 { SourceId(p); }
    assert DistinctIds(src, 5) by {
      forall p, q | p in src && q in src && src[p].id == src[q].id ensures p == q {
        SourceId(p);
        SourceId(q);
      }
    }
    assert DistinctIds(dst, 5) && DisjointIds(src, dst) && DisjointIds(src, map[]) && DisjointIds(map[], dst)
        && DistinctIds(map[], 5);
    forall k ensures HistoryAt(CFG, map[], k) {}
  }

  lemma KeysFit(sys: bool)
    ensures NoRawKeys(In(sys))
  {
    forall k ensures RawKeyAt(In(sys), k) {
      if k == "system" { assert At("/s", k)[3] == 's'; }
    }
  }

  lemma ApartFits(sys: bool)
    ensures Apart(In(sys))
  {
    hide Dir;
    ThumbsElsewhere();
    forall k ensures !SelectedIn(DeviceObjs(sys), k, "t") && !SelectedIn(DeviceObjs(sys), k, THUMBNAIL_FOLDER) {}
  }

  lemma ViewsFit(sys: bool)
    ensures ViewsOK(In(sys), Start(sys))
  {
    hide LocalView, DeviceView, HistoryView, OwnObjects, NoRawKeys, Apart;
    LocalViewFits();
    DeviceViewFits(sys);
    IdsFit(sys);
    KeysFit(sys);
    ApartFits(sys);
  }

  // ---------------------------------------------------------------------------------- what is copied

  lemma BookOf(sys: bool, f: string)
    requires LocalName(f) && f != "x.apnx"
    ensures f in LocalBooks(In(sys)) && At("/s", f) in SRC
  {
    hide Ext, LocalName;
    Names(f);
    LocalEntryFits(f);
    assert IsBook(CFG, SRC[At("/s", f)]) by { BookExts(f); }
  }

  lemma BookExts(f: string)
    requires LocalName(f) && f != "x.apnx" && Ext(f) == f[1..]
    ensures Ext(f) in CFG.bookExts
  {
    assert "x.a"[1..] == ".a" && "x.b"[1..] == ".b";
  }

  lemma NothingUnder(sys: bool)
    ensures Descend(DeviceObjs(sys), "t") == map[]
  {
    hide Below;
    forall k ensures At("t", k) !in DeviceObjs(sys) { assert At("t", k)[0] == 't' && "system"[0] == 's'; }
  }

  lemma NothingElse(sys: bool)
    ensures HistoryBooks(In(sys)) == map[] && DeviceBooksAt(In(sys)) == map[] && Row7(In(sys)) == {}
  {
    hide Ext, Descend;
    NothingUnder(sys);
  }

  /** Both books are copied, and they share their page index. */
  lemma SharedHere(sys: bool)
    ensures SharedPageIndex(In(sys)) && Row3(In(sys)) != {}
  {
    hide Ext, Supplements, LocalBooks, HistoryBooks, DeviceBooksAt, Descend;
    var i, q := In(sys), At("/s", "x.apnx");
    NothingElse(sys);
    BookOf(sys, "x.a");
    BookOf(sys, "x.b");
    SourceName();
    Indexes("/s", "x.a");
    Indexes("/s", "x.b");
    LocalEntryFits("x.apnx");
    assert q in Remaining(i) by { assert RemovedSet(i.src, "/s", {}) == {}; }
    assert "x.a" in Row3(i) && "x.b" in Row3(i);
    assert SharedBy(i, "x.a", "x.b", q);
  }

  // ---------------------------------------------------------------------------------- the runs

  /** Over a mounted device, the input meets every hypothesis, the planned actions can be done one after the other, and
      the run over the host fails. */
  lemma MountedRunFails() returns (b: Subsets, s: PState)
    ensures RunOK(In(false), b, Start(false)) && IsPlan(In(false), b, s) && Clear("/m", CFG, Start(false))
    ensures !Exec(Start(false), s.acts).failed
    ensures HostExec("/m", Host(HostWorld("/m", Start(false)), map[]), s.acts).failed
  {
    hide WorldOK, ViewsOK, RunOK, IsPlan, Exec, HostExec, HostWorld, SharedPageIndex, Row3;
    var i, w := In(false), Start(false);
    WorldFits(false);
    ViewsFit(false);
    b := SomeSubsets(i, w);
    s := SomePlan(i, b);
    SharedHere(false);
    assert Clear("/m", CFG, w) by { assert "m"[0] != 't' && "m"[0] != 's'; }
    PlanRunsAndPredicts(i, b, s, w);
    MountedRun(i, b, s, w, "/m");
  }

  function NewIdsFor(n: nat): (ids: seq<nat>)
    ensures |ids| == n && forall j :: 0 <= j < n ==> ids[j] == 8 + j
  {
    seq(n, j => 8 + j)
  }

  lemma RefusedRun(i: Inputs, b: Subsets, s: PState, w: World, m: Mtp, ids: seq<nat>)
    requires RunOK(i, b, w) && IsPlan(i, b, s) && HolderListed(i) && Plugged(i, w, m) && NewIds(m, ids)
    requires |s.acts| <= |ids|
    requires RootTargetMade(i, w)
    ensures !Exec(w, s.acts).failed && MtpExec(s.dst, m, s.acts, ids).failed
  {
    hide *;
    PlanRunsAndPredicts(i, b, s, w);
    MtpRun(i, b, s, w, m, ids);
  }

  lemma TargetToMake()
    ensures HolderListed(In(true)) && RootTargetMade(In(true), Start(true))
  {
    hide Row3, Dir, SharedPageIndex, RelClean, Base;
    SharedHere(true);
    Single("t");
    TargetMissing();
  }

  /** Over an MTP device with its system folder and without the target, which has one component, the input meets every
      hypothesis, the planned actions can be done one after the other by path, and the driver refuses to make the
      target. */
  lemma MtpRunFails() returns (b: Subsets, s: PState, m: Mtp, ids: seq<nat>)
    ensures RunOK(In(true), b, Start(true)) && IsPlan(In(true), b, s) && HolderListed(In(true))
    ensures Plugged(In(true), Start(true), m) && NewIds(m, ids) && |s.acts| <= |ids|
    ensures !Exec(Start(true), s.acts).failed && MtpExec(s.dst, m, s.acts, ids).failed
  {
    hide WorldOK, ViewsOK, RunOK, IsPlan, Exec, MtpExec, Plugged, HolderListed, RootTargetMade, In, Start;
    WorldFits(true);
    ViewsFit(true);
    InputIs(true);
    b := SomeSubsets(In(true), Start(true));
    s := SomePlan(In(true), b);
    m := Mtp(Start(true), map[7 := Entry("system", Directory)], map[4 := 7]);
    ids := NewIdsFor(|s.acts|);
    SystemPlugged();
    TargetToMake();
    RefusedRun(In(true), b, s, Start(true), m, ids);
  }

  lemma InputIs(sys: bool)
    ensures In(sys).cfg == CFG
  {
  }

  lemma TargetMissing()
    ensures "t" !in DeviceTreeOf(true)
  {
    assert "t"[0] != "system"[0];
  }

  lemma SystemPlugged()
    ensures Plugged(In(true), Start(true), Mtp(Start(true), map[7 := Entry("system", Directory)], map[4 := 7]))
  {
    var m := Mtp(Start(true), map[7 := Entry("system", Directory)], map[4 := 7]);
    assert m.store[7].path == "system";
    forall p ensures ListedAt(In(true), Start(true), m, p) {}
    forall p | p in Start(true).device ensures StoredAt(m.store, p) {}
    forall a, b ensures OneId(m.oids, a, b) {}
  }
}
