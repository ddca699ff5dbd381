/** The copy loop as a whole, in any order. */
module CopyLoop {
  import opened Paths
  import opened InfoSet
  import opened Plan
  import opened FileSystem
  import opened Invariant
  import opened Removals
  import opened DeviceRemovals
  import opened Copies

  /** The relative paths copied for the books `done`: the books and their page indexes found in `src`. */
  ghost function JobRels(src: OIS, root: string, done: set<string>): set<string> {
    RelsOf(src, root, RemovedSet(src, root, done))
  }

  ghost function RelsOf(src: OIS, root: string, ps: set<string>): set<string> {
    set p | p in ps && p in src && Below(p, root) :: Rel(p, root)
  }

  function ThumbJob(i: Inputs, avail: bool, src: OIS, k: string): Option<string> {
    var p := At(i.cfg.source, k);
    if p in src && ThumbCopied(i.cfg, avail, i.pics, src[p]) then Some(src[p].thumb) else None
  }

  /** The thumbnails copied for the books `done`. */
  ghost function JobNames(i: Inputs, avail: bool, src: OIS, done: set<string>): set<string> {
    set k | k in done && ThumbJob(i, avail, src, k).Some? :: ThumbJob(i, avail, src, k).value
  }

  ghost predicate JobOK(c: Ctx, src: OIS, k: string, p: string) {
    p in src && VictimOf(c.i.cfg.source, k, p) ==>
        p != "" && Below(p, c.i.cfg.source) && Rel(p, c.i.cfg.source) in c.rels
  }

  /** What the plan needs of a book it copies. */
  ghost predicate Case3At(c: Ctx, avail: bool, src: OIS, k: string) {
    && BookKey(k) && At(c.i.cfg.source, k) in src
    && (forall p :: JobOK(c, src, k, p))
    && (ThumbJob(c.i, avail, src, k).Some? ==> ThumbJob(c.i, avail, src, k).value in c.names)
  }

  ghost predicate Case3OK(c: Ctx, avail: bool, src: OIS, ks: set<string>) {
    forall k :: k in ks ==> Case3At(c, avail, src, k)
  }

  ghost function BookSteps(c: Ctx, s: PState, obj: Obj, q0: string, q1: string): PState {
    CopyIfFound(c.i.cfg, CopyIfFound(c.i.cfg, CopyObject(c.i.cfg, false, s, obj), q0), q1)
  }

  ghost predicate FileJob(c: Ctx, src: OIS, p: string) {
    p in src ==> p != "" && Below(p, c.i.cfg.source) && Rel(p, c.i.cfg.source) in c.rels
  }

  lemma RelsOfThree(src: OIS, root: string, p: string, q0: string, q1: string)
    ensures RelsOf(src, root, {p, q0, q1}) == RelsOf(src, root, {p}) + RelsOf(src, root, {q0}) + RelsOf(src, root, {q1})
  {
    hide Below;
  }

  lemma RelsOfOne(c: Ctx, src: OIS, p: string)
    requires FileJob(c, src, p)
    ensures RelsOf(src, c.i.cfg.source, {p}) == if p in src then {Rel(p, c.i.cfg.source)} else {}
  {
  }

  lemma CopyFoundRels(c: Ctx, used: set<string>, src6: OIS, dev6: Tree, J: set<string>, N: set<string>, s: PState,
                      q: string)
    requires State3(c, used, src6, dev6, J, N, s) && FileJob(c, src6, q)
    ensures State3(c, used, src6, dev6, J + RelsOf(src6, c.i.cfg.source, {q}), N, CopyIfFound(c.i.cfg, s, q))
  {
    hide State3, CopyIfFound, RelsOf, Below;
    State3Src(c, used, src6, dev6, J, N, s);
    CopyIfFoundInv(c, used, src6, dev6, J, N, s, q);
    RelsOfOne(c, src6, q);
    assert J + {} == J;
  }

  lemma BookStepsInv(c: Ctx, used: set<string>, src6: OIS, dev6: Tree, J: set<string>, N: set<string>, s: PState,
                     k: string, q0: string, q1: string)
    requires State3(c, used, src6, dev6, J, N, s) && At(c.i.cfg.source, k) in src6 && s.src == src6
    requires FileJob(c, src6, At(c.i.cfg.source, k)) && FileJob(c, src6, q0) && FileJob(c, src6, q1)
    ensures State3(c, used, src6, dev6, J + RelsOf(src6, c.i.cfg.source, {At(c.i.cfg.source, k), q0, q1}), N,
                   BookSteps(c, s, src6[At(c.i.cfg.source, k)], q0, q1))
  {
    hide State3, CopyObject, CopyIfFound, RelsOf, FileJob, Below, At;
    var root, p := c.i.cfg.source, At(c.i.cfg.source, k);
    var s1, J1 := CopyObject(c.i.cfg, false, s, src6[p]), J + RelsOf(src6, root, {p});
    CopyBookRels(c, used, src6, dev6, J, N, s, k);
    CopyFoundRels(c, used, src6, dev6, J1, N, s1, q0);
    var s2, J2 := CopyIfFound(c.i.cfg, s1, q0), J1 + RelsOf(src6, root, {q0});
    CopyFoundRels(c, used, src6, dev6, J2, N, s2, q1);
    RelsOfThree(src6, root, p, q0, q1);
    assert J2 + RelsOf(src6, root, {q1}) == J + RelsOf(src6, root, {p, q0, q1});
  }

  lemma CopyBookRels(c: Ctx, used: set<string>, src6: OIS, dev6: Tree, J: set<string>, N: set<string>, s: PState,
                     k: string)
    requires State3(c, used, src6, dev6, J, N, s) && At(c.i.cfg.source, k) in src6 && s.src == src6
    requires FileJob(c, src6, At(c.i.cfg.source, k))
    ensures State3(c, used, src6, dev6, J + RelsOf(src6, c.i.cfg.source, {At(c.i.cfg.source, k)}), N,
              CopyObject(c.i.cfg, false, s, src6[At(c.i.cfg.source, k)]))
  {
    hide State3, CopyObject, RelsOf;
    RelsOfOne(c, src6, At(c.i.cfg.source, k));
    CopyRel(c, used, src6, dev6, J, N, s, k);
  }

  lemma State3Src(c: Ctx, used: set<string>, src6: OIS, dev6: Tree, J: set<string>, N: set<string>, s: PState)
    requires State3(c, used, src6, dev6, J, N, s)
    ensures s.src == src6 && c.i.pics == c.w0.pics.Keys
  {
  }

  lemma Step3Unfold(c: Ctx, avail: bool, s: PState, obj: Obj, q0: string, q1: string)
    requires Supplements(obj.path) == [q0, q1]
    ensures Step3(c.i.cfg, avail, false, c.i.pics, s, obj)
              == CopyThumb(c.i.cfg, avail, c.i.pics, BookSteps(c, s, obj, q0, q1), obj)
  {
  }

  lemma JobRelsSnoc(src: OIS, root: string, done: set<string>, k: string, q0: string, q1: string)
    requires Supplements(At(root, k)) == [q0, q1]
    ensures JobRels(src, root, done + {k})
            == JobRels(src, root, done) + RelsOf(src, root, {At(root, k), q0, q1})
  {
    hide Supplements;
    RemovedSnoc(src, root, done, k);
    VictimsThree(src, root, k, q0, q1);
    RelsOfUnion(src, root, RemovedSet(src, root, done), {At(root, k), q0, q1}, RemovedSet(src, root, done + {k}));
  }

  lemma RelsOfUnion(src: OIS, root: string, a: set<string>, b: set<string>, u: set<string>)
    requires u == a + set p | p in b && p in src
    ensures RelsOf(src, root, u) == RelsOf(src, root, a) + RelsOf(src, root, b)
  {
    hide Below;
  }

  lemma JobNamesSnoc(i: Inputs, avail: bool, src: OIS, done: set<string>, k: string)
    ensures JobNames(i, avail, src, done + {k})
            == JobNames(i, avail, src, done)
                + (if ThumbJob(i, avail, src, k).Some? then {ThumbJob(i, avail, src, k).value} else {})
  {
    hide ThumbJob;
    assert forall j :: j in done + {k} <==> j in done || j == k;
  }

  ghost predicate Copied3(c: Ctx, used: set<string>, avail: bool, src6: OIS, dev6: Tree, done: set<string>, s: PState) {
    State3(c, used, src6, dev6, JobRels(src6, c.i.cfg.source, done), JobNames(c.i, avail, src6, done), s)
  }

  /** One round of the loop in terms of the two sets. */
  lemma Step3Core(c: Ctx, used: set<string>, avail: bool, src6: OIS, dev6: Tree, J: set<string>, N: set<string>,
                  s: PState, k: string, q0: string, q1: string)
    requires State3(c, used, src6, dev6, J, N, s) && At(c.i.cfg.source, k) in src6 && s.src == src6
    requires c.i.pics == c.w0.pics.Keys
    requires FileJob(c, src6, At(c.i.cfg.source, k)) && FileJob(c, src6, q0) && FileJob(c, src6, q1)
    requires Supplements(src6[At(c.i.cfg.source, k)].path) == [q0, q1] && (avail ==> THUMBNAIL_FOLDER in c.i.dst)
    requires var obj := src6[At(c.i.cfg.source, k)];
             ThumbCopied(c.i.cfg, avail, c.i.pics, obj) ==> obj.thumb in c.names
    ensures var obj := src6[At(c.i.cfg.source, k)];
            State3(c, used, src6, dev6, J + RelsOf(src6, c.i.cfg.source, {At(c.i.cfg.source, k), q0, q1}),
                   if ThumbCopied(c.i.cfg, avail, c.i.pics, obj) then N + {obj.thumb} else N,
                   Step3(c.i.cfg, avail, false, c.i.pics, s, obj))
  {
    hide State3, CopyThumb, BookSteps, Step3, Supplements, RelsOf, FileJob, ThumbCopied, At;
    var p := At(c.i.cfg.source, k);
    BookStepsInv(c, used, src6, dev6, J, N, s, k, q0, q1);
    Step3Unfold(c, avail, s, src6[p], q0, q1);
    CopyThumbInv(c, used, src6, dev6, J + RelsOf(src6, c.i.cfg.source, {p, q0, q1}), N,
        BookSteps(c, s, src6[p], q0, q1), avail, src6[p]);
  }

  lemma Step3State(c: Ctx, used: set<string>, avail: bool, src6: OIS, dev6: Tree, done: set<string>, s: PState,
                   k: string, q0: string, q1: string)
    requires Copied3(c, used, avail, src6, dev6, done, s) && Case3At(c, avail, src6, k)
    requires Supplements(At(c.i.cfg.source, k)) == [q0, q1] && (avail ==> THUMBNAIL_FOLDER in c.i.dst)
    requires src6[At(c.i.cfg.source, k)].path == At(c.i.cfg.source, k)
    ensures Copied3(c, used, avail, src6, dev6, done + {k},
              Step3(c.i.cfg, avail, false, c.i.pics, s, src6[At(c.i.cfg.source, k)]))
  {
    hide Supplements;
    State3Src(c, used, src6, dev6, JobRels(src6, c.i.cfg.source, done), JobNames(c.i, avail, src6, done), s);
    hide State3;
    ThreeJobs(c, avail, src6, k, q0, q1);
    NewThumb(c, avail, src6, k);
    hide Case3At, Step3, JobRels, RelsOf, FileJob, ThumbJob, ThumbCopied, JobNames, At;
    Step3Core(c, used, avail, src6, dev6, JobRels(src6, c.i.cfg.source, done), JobNames(c.i, avail, src6, done), s,
        k, q0, q1);
    JobRelsSnoc(src6, c.i.cfg.source, done, k, q0, q1);
    NamesAfter(c, avail, src6, done, k);
  }

  lemma NamesAfter(c: Ctx, avail: bool, src6: OIS, done: set<string>, k: string)
    requires At(c.i.cfg.source, k) in src6
    ensures var obj := src6[At(c.i.cfg.source, k)];
            JobNames(c.i, avail, src6, done + {k})
            == if ThumbCopied(c.i.cfg, avail, c.i.pics, obj) then JobNames(c.i, avail, src6, done) + {obj.thumb}
                else JobNames(c.i, avail, src6, done)
  {
    JobNamesSnoc(c.i, avail, src6, done, k);
  }

  lemma ThreeJobs(c: Ctx, avail: bool, src6: OIS, k: string, q0: string, q1: string)
    requires Case3At(c, avail, src6, k) && Supplements(At(c.i.cfg.source, k)) == [q0, q1]
    ensures FileJob(c, src6, At(c.i.cfg.source, k)) && FileJob(c, src6, q0) && FileJob(c, src6, q1)
  {
    assert JobOK(c, src6, k, At(c.i.cfg.source, k)) && JobOK(c, src6, k, q0) && JobOK(c, src6, k, q1);
  }

  lemma NewThumb(c: Ctx, avail: bool, src6: OIS, k: string)
    requires Case3At(c, avail, src6, k) && At(c.i.cfg.source, k) in src6
    ensures var obj := src6[At(c.i.cfg.source, k)];
            ThumbCopied(c.i.cfg, avail, c.i.pics, obj) ==> obj.thumb in c.names
  {
  }

  lemma Case3Book(c: Ctx, avail: bool, src: OIS, k: string) returns (q0: string, q1: string)
    requires Case3At(c, avail, src, k) && RootPath(c.i.cfg.source)
    ensures Supplements(At(c.i.cfg.source, k)) == [q0, q1]
  {
    q0, q1 := BookSupplements(c.i.cfg.source, k);
  }

  /** The loop for case 3, in any order. */
  lemma {:induction false} Loop3State(c: Ctx, used: set<string>, avail: bool, dev6: Tree, s: PState, objs: OIS,
                                      order: seq<string>)
    requires Copied3(c, used, avail, s.src, dev6, {}, s) && NoRepeat(order) && (avail ==> THUMBNAIL_FOLDER in c.i.dst)
    requires forall k :: k in order ==>
              k in objs && At(c.i.cfg.source, k) in s.src && objs[k] == s.src[At(c.i.cfg.source, k)]
    requires forall k :: k in order ==> objs[k].path == At(c.i.cfg.source, k)
    requires Case3OK(c, avail, s.src, Keys(order)) && RootPath(c.i.cfg.source)
    ensures Copied3(c, used, avail, s.src, dev6, Keys(order), Loop3(c.i.cfg, avail, false, c.i.pics, s, objs, order))
    decreases |order|
  {
    hide Copied3, Case3At, Step3, Supplements, RootPath;
    if order == [] {
      assert Keys(order) == {};
    } else {
      var pre, k := order[..|order| - 1], order[|order| - 1];
      KeysSnoc(order);
      assert k !in Keys(pre);
      assert Case3At(c, avail, s.src, k);
      Loop3State(c, used, avail, dev6, s, objs, pre);
      var q0, q1 := Case3Book(c, avail, s.src, k);
      Step3State(c, used, avail, s.src, dev6, Keys(pre), Loop3(c.i.cfg, avail, false, c.i.pics, s, objs, pre), k, q0,
          q1);
    }
  }
}
