/** Where the code does not do what its comments suggest: each lemma shows that a hypothesis of the theorems is
    needed. */
module Witnesses {
  import opened Paths
  import opened InfoSet
  import opened Plan

  // ---------------------------------------------------------------------------------- raw-prefix siblings

  /** A directory stays, however empty, as long as a sibling whose name starts with its name is there. */
  lemma RawSiblingBlocks(s: PState, d: string, root: string, k: string)
    requires d != root && d != "" && k in s.src && s.src[k].dir && d <= k && k != d
    ensures RemoveDirs(s, d, root) == s
  {
    assert SelectedIn(s.src, k, d);
  }

  const F := "/s/F"
  const G := "/s/F G"

  function Entry(p: string, dir: bool): Obj { Obj(0, "", "", dir, p, "", "") }

  /** Two directories, the name of one a raw prefix of the name of the other, with a book in each. */
  function Siblings(): PState {
    var os := map["/s" := Entry("/s", true), F := Entry(F, true), "/s/F/a.epub" := Entry("/s/F/a.epub", false),
                  G := Entry(G, true), "/s/F G/b.epub" := Entry("/s/F G/b.epub", false)];
    PState(os, map[], map[], [], 0, false)
  }

  lemma SiblingPaths()
    ensures Dir("/s/F/a.epub") == F && Dir("/s/F G/b.epub") == G && Dir(F) == "/s" && Dir(G) == "/s"
  {
    LastIndexUnique("/s/F/a.epub", '/', 4);
    LastIndexUnique("/s/F G/b.epub", '/', 6);
    LastIndexUnique(F, '/', 2);
    LastIndexUnique(G, '/', 2);
    assert "/s/F/a.epub"[..4] == F && "/s/F G/b.epub"[..6] == G && F[..2] == "/s" && G[..2] == "/s";
  }

  /** A directory below the root from whose path nothing is selected is removed. */
  lemma OnlyEntry(s: PState, d: string, root: string)
    requires d != root && d != "" && Dir(d) == root && |root| < |d| && NothingSelected(s.src, d)
    ensures RemoveDirs(s, d, root).src == s.src - {d}
  {
    hide Dir, Selected;
  }

  /** Removing the book of the shorter name first leaves its directory behind. */
  lemma ShortFirst()
    ensures var s := RemoveObject(RemoveObject(Siblings(), Entry("/s/F/a.epub", false), "/s"),
              Entry("/s/F G/b.epub", false), "/s");
            F in s.src && G !in s.src
  {
    hide Dir, RemoveDirs;
    SiblingPaths();
    var s1 := RemoveSrc(Siblings(), Entry("/s/F/a.epub", false));
    assert G in s1.src && s1.src[G].dir && F in s1.src;
    RawSiblingBlocks(s1, F, "/s", G);
    var s2 := RemoveSrc(s1, Entry("/s/F G/b.epub", false));
    OnlyEntry(s2, G, "/s");
  }

  /** In the other order both directories go: the outcome depends on the order in which the map is walked. */
  lemma LongFirst()
    ensures var s := RemoveObject(RemoveObject(Siblings(), Entry("/s/F G/b.epub", false), "/s"),
              Entry("/s/F/a.epub", false), "/s");
            F !in s.src && G !in s.src
  {
    hide Dir;
    SiblingPaths();
    var s0 := Siblings();
    var s1 := RemoveSrc(s0, Entry("/s/F G/b.epub", false));
    assert NothingSelected(s1.src, G);
    var s2 := RemoveDirs(s1, G, "/s");
    assert s2.src == s1.src - {G};
    var s3 := RemoveSrc(s2, Entry("/s/F/a.epub", false));
    assert NothingSelected(s3.src, F);
    assert RemoveDirs(s3, F, "/s").src == s3.src - {F};
  }

  // ---------------------------------------------------------------------------------- shared thumbnails

  /** Device drivers do not know thumbnail names, so the entry that was replaced stays known: two copied books with the
      same thumbnail name remove the same object twice. */
  lemma SharedThumbRemovedTwice(cfg: Config, pics: set<string>, s: PState, x: Obj, y: Obj)
    requires x.thumb == y.thumb != "" && x.thumb in s.thumbs && s.thumbs[x.thumb].thumb == ""
    requires Join(cfg.thumbDir, x.thumb) in pics
    ensures var t := CopyThumb(cfg, true, pics, CopyThumb(cfg, true, pics, s, x), y);
            var n := |s.acts|;
            |t.acts| == n + 4 && t.acts[n] == t.acts[n + 2] == Action(Dst, Remove, s.thumbs[x.thumb])
  {
    var to := Join(THUMBNAIL_FOLDER, x.thumb);
    assert |to| > |x.thumb|;
    var s1 := CopyThumb(cfg, true, pics, s, x);
    assert x.thumb in s1.thumbs && s1.thumbs[x.thumb] == s.thumbs[x.thumb];
  }

  // ---------------------------------------------------------------------------------- shared page indexes

  /** Books of one directory that differ only in their extension have the same page indexes. */
  lemma SameStemShares(dir: string, f: string, g: string, b: string)
    requires RootPath(dir) && CleanPart(f) && CleanPart(g) && b + Ext(f) == f && b + Ext(g) == g
    ensures Supplements(At(dir, f)) == Supplements(At(dir, g)) && At(dir, b + ".apnx") in Supplements(At(dir, f))
  {
    hide Supplements, RootPath, CleanPart, Ext;
    SupplementsAre(dir, f, b);
    SupplementsAre(dir, g, b);
  }

  // ---------------------------------------------------------------------------------- a missing target

  lemma SomeKey(o: seq<string>)
    ensures o == [] || exists k :: k in o
  {
    if o != [] { assert o[0] in o; }
  }

  /** While the target is missing, everything the driver lists is taken for a book under it: on a first run nothing is
      planned when each book has the relative path of something on the device. */
  lemma RawKeysHide(i: Inputs, b: Subsets, s: PState)
    requires IsSubsets(i, b) && IsPlan(i, b, s) && i.cfg.target !in i.Device() && b.history == map[]
    requires b.local.Keys <= i.Device().Keys
    ensures s.acts == []
  {
    hide IsSubsets, Loop7, Loop6, Step3;
    var o := PlanOrders(i, b, s);
    var s0 := i.Start(b.thumbs);
    assert After7(i, b, o) == s0 && After6(i, b, o, s0) == s0;
    assert Objs3(i, b, s0, s0).Keys == {};
    SomeKey(o.o3);
  }
}
