/** sync/prepare.go in its own form: the planner walks its maps in whatever order they give, appends to one list of
    actions, and edits the maps that mirror the two file systems as it goes. */
module Planning {
  import opened Paths
  import opened InfoSet
  import opened Plan
  import opened ObjectSets

  class Planner {
    const cfg: Config
    const srcOIS: ObjectInfoSet
    const dstOIS: ObjectInfoSet
    const deviceThumbs: ObjectInfoSet
    var actions: seq<Action>
    var next: nat
    var hangs: bool

    /** The three maps are different maps. */
    ghost predicate Valid() {
      srcOIS != dstOIS && srcOIS != deviceThumbs && dstOIS != deviceThumbs
    }

    ghost function State(): PState
      reads this, srcOIS, dstOIS, deviceThumbs
    {
      PState(srcOIS.m, dstOIS.m, deviceThumbs.m, actions, next, hangs)
    }

    constructor (cfg: Config, src: ObjectInfoSet, dst: ObjectInfoSet, thumbs: ObjectInfoSet, next: nat)
      requires src != dst && src != thumbs && dst != thumbs
      ensures Valid() && srcOIS == src && dstOIS == dst && deviceThumbs == thumbs && this.cfg == cfg
      ensures State() == PState(src.m, dst.m, thumbs.m, [], next, false)
    {
      this.cfg := cfg;
      srcOIS := src;
      dstOIS := dst;
      deviceThumbs := thumbs;
      actions := [];
      this.next := next;
      hangs := false;
    }

    method Act(actor: Actor, kind: Kind, obj: Obj)
      modifies this
      ensures State() == old(State()).(acts := old(actions) + [Action(actor, kind, obj)])
    {
      actions := actions + [Action(actor, kind, obj)];
    }

    // -------------------------------------------------------------------------------- removals

    /** makeRemoveActions */
    method MakeRemoveActions(obj: Obj)
      requires Valid()
      modifies this, srcOIS
      ensures State() == RemoveObject(old(State()), obj, cfg.source)
      ensures '/' !in obj.path ==> State() == RemoveSrc(old(State()), obj)
    {
      if '/' !in obj.path { NoSlash(obj.path); }
      Act(Src, Remove, obj);
      srcOIS.Delete(obj.path);
      var dir := Dir(obj.path);
      if dir == "." { return; }
      MakeRemoveDirActions(dir);
    }

    /** makeRemoveDirActions.  Where the Go recursion would not end, `hangs` says so. */
    method MakeRemoveDirActions(dir: string)
      requires Valid()
      modifies this, srcOIS
      ensures State() == RemoveDirs(old(State()), dir, cfg.source)
      decreases |dir|
    {
      if dir == cfg.source { return; }
      var left := srcOIS.SubsetByPath(dir);
      LeftIsEmpty(srcOIS.m, dir, left.m);
      if |left.m| > 0 { return; }
      var obj := srcOIS.Find(dir);
      if obj.Some? {
        Act(Src, Remove, obj.value);
        srcOIS.Delete(dir);
      }
      if |Dir(dir)| < |dir| {
        MakeRemoveDirActions(Dir(dir));
      } else {
        hangs := true;
      }
    }

    method RemoveSupplements(obj: Obj)
      requires Valid()
      modifies this, srcOIS
      ensures var sup := Supplements(obj.path);
              State() == RemoveIfFound(RemoveIfFound(old(State()), sup[0], cfg.source), sup[1], cfg.source)
    {
      var sup := Supplements(obj.path);
      ghost var s0 := State();
      for n := 0 to |sup|
        invariant State() == if n == 0 then s0 else if n == 1 then RemoveIfFound(s0, sup[0], cfg.source)
                             else RemoveIfFound(RemoveIfFound(s0, sup[0], cfg.source), sup[1], cfg.source)
      {
        var sobj := srcOIS.Find(sup[n]);
        if sobj.Some? { MakeRemoveActions(sobj.value); }
      }
    }

    /** Removing a thumbnail recorded for a removed book. */
    method RemoveThumbnail(avail: bool, name: string)
      requires Valid()
      modifies this, dstOIS, deviceThumbs
      ensures State() == RemoveThumb(old(State()), avail, name)
    {
      if avail && |name| > 0 {
        var thumb := deviceThumbs.Find(name);
        if thumb.Some? {
          Act(Dst, Remove, thumb.value);
          dstOIS.Delete(thumb.value.path);
          deviceThumbs.Delete(name);
        }
      }
    }

    /** One round of case 7: the book goes, its page indexes, its thumbnail. */
    method RemoveLocalBook(avail: bool, obj: Obj)
      requires Valid()
      modifies this, srcOIS, dstOIS, deviceThumbs
      ensures State() == Step7(cfg, avail, old(State()), obj)
    {
      hide RemoveObject, RemoveIfFound, RemoveThumb, Supplements;
      MakeRemoveActions(obj);
      RemoveSupplements(obj);
      RemoveThumbnail(avail, obj.thumb);
    }

    /** The loop of case 7, in the order in which the map happens to be walked. */
    method Case7(avail: bool, objs: OIS) returns (ghost order: seq<string>)
      requires Valid()
      modifies this, srcOIS, dstOIS, deviceThumbs
      ensures IsOrder(order, objs.Keys) && State() == Loop7(cfg, avail, old(State()), objs, order)
    {
      hide Step7, Step6, Step3, IsOrder;
      order := [];
      ghost var s0 := State();
      var todo := objs.Keys;
      assert IsOrder(order, {}) by { NoOrder(); }
      assert objs.Keys - todo == {};
      while todo != {}
        invariant todo <= objs.Keys && IsOrder(order, objs.Keys - todo) && forall k :: k in order ==> k in objs
        invariant State() == Loop7(cfg, avail, s0, objs, order)
        decreases todo
      {
        var k :| k in todo;
        assert todo == (todo - {k}) + {k};
        todo := todo - {k};
        RemoveLocalBook(avail, objs[k]);
        OrderNext(order, objs.Keys, todo, k);
        order := order + [k];
      }
      assert objs.Keys - todo == objs.Keys;
    }

    method RemoveDeviceSupplements(obj: Obj)
      requires Valid()
      modifies this, dstOIS
      ensures var sup := Supplements(obj.path);
              State() == RemoveDstIfFound(RemoveDstIfFound(old(State()), sup[0]), sup[1])
    {
      var sup := Supplements(obj.path);
      ghost var s0 := State();
      for n := 0 to |sup|
        invariant State() == if n == 0 then s0 else if n == 1 then RemoveDstIfFound(s0, sup[0])
                             else RemoveDstIfFound(RemoveDstIfFound(s0, sup[0]), sup[1])
      {
        var sobj := dstOIS.Find(sup[n]);
        if sobj.Some? {
          Act(Dst, Remove, sobj.value);
          dstOIS.Delete(sobj.value.path);
        }
      }
    }

    /** One round of case 6: the book goes from the device, its page indexes, the thumbnail recorded for it. */
    method RemoveDeviceBook(avail: bool, history: OIS, k: string, obj: Obj)
      requires Valid()
      modifies this, dstOIS, deviceThumbs
      ensures State() == Step6(avail, history, old(State()), k, obj)
    {
      hide RemoveDstIfFound, RemoveThumb, Supplements;
      Act(Dst, Remove, obj);
      dstOIS.Delete(obj.path);
      assert State() == RemoveDst(old(State()), obj, obj.path);
      RemoveDeviceSupplements(obj);
      if k != "" && k in history { RemoveThumbnail(avail, history[k].thumb); }
    }

    /** The loop of case 6. */
    method Case6(avail: bool, history: OIS, objs: OIS) returns (ghost order: seq<string>)
      requires Valid()
      modifies this, dstOIS, deviceThumbs
      ensures IsOrder(order, objs.Keys) && State() == Loop6(avail, history, old(State()), objs, order)
    {
      hide Step7, Step6, Step3, IsOrder;
      order := [];
      ghost var s0 := State();
      var todo := objs.Keys;
      assert IsOrder(order, {}) by { NoOrder(); }
      assert objs.Keys - todo == {};
      while todo != {}
        invariant todo <= objs.Keys && IsOrder(order, objs.Keys - todo) && forall k :: k in order ==> k in objs
        invariant State() == Loop6(avail, history, s0, objs, order)
        decreases todo
      {
        var k :| k in todo;
        assert todo == (todo - {k}) + {k};
        todo := todo - {k};
        RemoveDeviceBook(avail, history, k, objs[k]);
        OrderNext(order, objs.Keys, todo, k);
        order := order + [k];
      }
      assert objs.Keys - todo == objs.Keys;
    }

    // -------------------------------------------------------------------------------- copies

    method EnsureDirectory(head: string)
      requires Valid()
      modifies this, dstOIS
      ensures State() == EnsureDir(old(State()), head)
    {
      hide Base;
      var found := dstOIS.Find(head);
      if found.None? {
        var obj := Obj(next, Base(head), "", true, head, "", "");
        next := next + 1;
        dstOIS.Add(head, obj);
        Act(Dst, MkDir, obj);
      }
    }

    /** makeCreateDirActions */
    method MakeCreateDirActions(dir: string)
      requires Valid()
      modifies this, dstOIS
      ensures State() == CreateDirs(old(State()), cfg.target, DirParts(dir))
    {
      hide EnsureDir, Split, Join;
      var head, parts := cfg.target, [];
      if dir != "." { parts := Split(dir); }
      ghost var s0 := State();
      var n := 0;
      while true
        invariant 0 <= n <= |parts| && head == JoinAll(cfg.target, parts[..n])
        invariant State() == if n == 0 then s0 else CreateDirs(s0, cfg.target, parts[..n - 1])
        decreases |parts| - n
      {
        EnsureDirectory(head);
        assert n > 0 ==> parts[..n][..n - 1] == parts[..n - 1];
        if n == |parts| { break; }
        assert parts[..n + 1][..n] == parts[..n];
        head := Join(head, parts[n]);
        n := n + 1;
      }
      assert parts[..n] == parts;
    }

    /** makeCopyActions */
    method MakeCopyActions(obj: Obj, email: bool)
      requires Valid()
      modifies this, dstOIS
      ensures State() == CopyObject(cfg, email, old(State()), obj) && CopiedLast(cfg, email, obj, actions)
    {
      TrimBelow(obj.path, cfg.source);
      var dstPath;
      var relPath := TrimPrefix(obj.path, cfg.source + "/");
      if !email {
        MakeCreateDirActions(Dir(relPath));
        dstPath := Join(cfg.target, relPath);
        var prevObj := dstOIS.Find(dstPath);
        if prevObj.Some? && !prevObj.value.dir {
          Act(Dst, Remove, prevObj.value);
          dstOIS.Delete(dstPath);
        }
      } else {
        dstPath := relPath;
      }
      var o := Obj(next, obj.name, obj.pid, false, dstPath, "", obj.path);
      next := next + 1;
      dstOIS.Add(dstPath, o);
      Act(Dst, Copy, o);
    }

    method CopySupplements(obj: Obj)
      requires Valid()
      modifies this, dstOIS
      ensures var sup := Supplements(obj.path);
              State() == CopyIfFound(cfg, CopyIfFound(cfg, old(State()), sup[0]), sup[1])
    {
      var sup := Supplements(obj.path);
      ghost var s0 := State();
      for n := 0 to |sup|
        invariant srcOIS.m == old(srcOIS.m)
        invariant State() == if n == 0 then s0 else if n == 1 then CopyIfFound(cfg, s0, sup[0])
                             else CopyIfFound(cfg, CopyIfFound(cfg, s0, sup[0]), sup[1])
      {
        var sobj := srcOIS.Find(sup[n]);
        if sobj.Some? { MakeCopyActions(sobj.value, false); }
      }
    }

    /** The thumbnail of a copied book, if it was extracted; `pics` are the files that os.Stat finds. */
    method CopyThumbnail(avail: bool, pics: set<string>, obj: Obj)
      requires Valid()
      modifies this, dstOIS, deviceThumbs
      ensures State() == CopyThumb(cfg, avail, pics, old(State()), obj)
    {
      if avail && |obj.thumb| > 0 {
        var from := Join(cfg.thumbDir, obj.thumb);
        var to := Join(THUMBNAIL_FOLDER, obj.thumb);
        if from !in pics { return; }
        var oldThumb := deviceThumbs.Find(obj.thumb);
        if oldThumb.Some? {
          Act(Dst, Remove, oldThumb.value);
          dstOIS.Delete(oldThumb.value.path);
          deviceThumbs.Delete(oldThumb.value.thumb);
        }
        var thumb := Obj(next, obj.thumb, "", false, to, "", from);
        next := next + 1;
        Act(Dst, Copy, thumb);
        deviceThumbs.Add(to, thumb);
        dstOIS.Add(to, thumb);
      }
    }

    /** One round of case 3: the book is copied and, unless it is sent by e-mail, its page indexes and its thumbnail. */
    method CopyBook(avail: bool, email: bool, pics: set<string>, obj: Obj)
      requires Valid()
      modifies this, dstOIS, deviceThumbs
      ensures State() == Step3(cfg, avail, email, pics, old(State()), obj)
    {
      hide CopyObject, CopyIfFound, CopyThumb, Supplements;
      MakeCopyActions(obj, email);
      if !email {
        CopySupplements(obj);
        CopyThumbnail(avail, pics, obj);
      }
    }

    /** The loop of case 3. */
    method Case3(avail: bool, email: bool, pics: set<string>, objs: OIS) returns (ghost order: seq<string>)
      requires Valid()
      modifies this, dstOIS, deviceThumbs
      ensures IsOrder(order, objs.Keys) && State() == Loop3(cfg, avail, email, pics, old(State()), objs, order)
    {
      hide Step7, Step6, Step3, IsOrder;
      order := [];
      ghost var s0 := State();
      var todo := objs.Keys;
      assert IsOrder(order, {}) by { NoOrder(); }
      assert objs.Keys - todo == {};
      while todo != {}
        invariant todo <= objs.Keys && IsOrder(order, objs.Keys - todo) && forall k :: k in order ==> k in objs
        invariant State() == Loop3(cfg, avail, email, pics, s0, objs, order)
        decreases todo
      {
        var k :| k in todo;
        assert todo == (todo - {k}) + {k};
        todo := todo - {k};
        CopyBook(avail, email, pics, objs[k]);
        OrderNext(order, objs.Keys, todo, k);
        order := order + [k];
      }
      assert objs.Keys - todo == objs.Keys;
    }
  }

  /** The last action copies the object, from its path and under its name, to the path that it has under the source: as
      it is for e-mail, and otherwise below the target. */
  ghost predicate CopiedLast(cfg: Config, email: bool, obj: Obj, acts: seq<Action>) {
    && |acts| > 0
    && var a, p := acts[|acts| - 1], obj.path;
    && a.actor.Dst? && a.kind.Copy? && !a.obj.dir && a.obj.name == obj.name && a.obj.pid == obj.pid && a.obj.from == p
    && var r := if Below(p, cfg.source) then Rel(p, cfg.source) else p;
    && a.obj.path == if email then r else Join(cfg.target, r)
  }

  /** Nothing is left under a directory exactly when SubsetByPath selects nothing. */
  lemma LeftIsEmpty(os: OIS, dir: string, left: OIS)
    requires IsSubsetByPath(os, dir, left)
    ensures left == map[] <==> (if dir == "" then os == map[] else NothingSelected(os, dir))
    ensures |left| > 0 <==> left != map[]
  {
    if dir != "" {
      if NothingSelected(os, dir) {
        forall n ensures n !in left { assert n in left ==> FromSelected(os, dir, n, left[n]); }
      }
      if k :| SelectedIn(os, k, dir) { assert TrimPrefix(k, dir + "/") in left; }
    }
    if left != map[] { var n :| n in left; assert n in left.Keys; }
  }

  lemma NoOrder()
    ensures IsOrder([], {})
  {
  }

  /** The order of a loop grows by the key it takes next. */
  lemma OrderNext(order: seq<string>, keys: set<string>, todo: set<string>, k: string)
    requires todo <= keys && k in keys && k !in todo && IsOrder(order, keys - (todo + {k}))
    ensures IsOrder(order + [k], keys - todo) && (order + [k])[..|order|] == order
    ensures forall x :: x in order ==> x in keys
  {
    OrderSnoc(order, keys - (todo + {k}), k);
    assert keys - todo == (keys - (todo + {k})) + {k};
  }

  lemma OrderSnoc(order: seq<string>, done: set<string>, k: string)
    requires IsOrder(order, done) && k !in done
    ensures IsOrder(order + [k], done + {k})
  {
  }

  method BooksIn(cfg: Config, os: ObjectInfoSet) returns (books: ObjectInfoSet)
    ensures fresh(books) && books.m == Books(cfg, os.m)
  {
    books := os.SubsetByFunc((k: string, v: Obj) => IsBook(cfg, v));
    assert books.m == Books(cfg, os.m);
  }

  /** The thumbnails of the thumbnail folder: first the subdirectories are put aside, then what seems to lie in one of
      them, then what has another extension. */
  method KeepThumbnails(cfg: Config, sub: ObjectInfoSet) returns (thumbs: ObjectInfoSet)
    ensures fresh(thumbs) && thumbs.m == ThumbFilter(cfg, sub.m)
    ensures forall k :: k in thumbs.m <==>
              && k in sub.m && !sub.m[k].dir && Ext(sub.m[k].name) in cfg.thumbExts
              && forall d :: d in sub.m && sub.m[d].dir ==> !(d <= k)
    ensures forall k :: k in thumbs.m ==> thumbs.m[k] == sub.m[k]
  {
    hide Ext;
    var dirs: set<string> := {};
    var files := new ObjectInfoSet();
    var todo := sub.m.Keys;
    while todo != {}
      invariant fresh(files) && todo <= sub.m.Keys
      invariant dirs == set k | k in sub.m && k !in todo && sub.m[k].dir
      invariant files.m == map k | k in sub.m && k !in todo && !sub.m[k].dir :: sub.m[k]
      decreases todo
    {
      var k :| k in todo;
      todo := todo - {k};
      if sub.m[k].dir { dirs := dirs + {k}; } else { files.m := files.m[k := sub.m[k]]; }
    }
    var loose := files.SubsetByFunc((k: string, v: Obj) => forall d :: d in dirs ==> !(d <= k));
    thumbs := loose.SubsetByFunc((k: string, v: Obj) => Ext(v.name) in cfg.thumbExts);
    assert forall d :: d in dirs <==> d in sub.m && sub.m[d].dir;
    assert forall k :: k in thumbs.m <==> k in ThumbFilter(cfg, sub.m);
  }

  /** Case 7 in the context of PrepareActions: what is left of the local books. */
  method RemovedFromDevice(p: Planner, i: Inputs, ghost b: Subsets, historyBooks: ObjectInfoSet,
                           deviceBooks: ObjectInfoSet,
      localBooks: ObjectInfoSet)
    returns (left: ObjectInfoSet, ghost o7: seq<string>)
    requires p.Valid() && p.cfg == i.cfg && p.State() == i.Start(b.thumbs)
    requires historyBooks.m == b.history && localBooks.m == b.local && deviceBooks.m == DeviceBooks(i, b, p.State())
    requires {historyBooks, localBooks} !! {p.srcOIS, p.dstOIS, p.deviceThumbs}
    modifies p, p.srcOIS, p.dstOIS, p.deviceThumbs
    ensures left == localBooks || fresh(left)
    ensures left.m == Local7(i, b) && historyBooks.m == b.history
    ensures Active7(i, b) ==> IsOrder(o7, Objs7(i, b).Keys)
    ensures p.State() == After7(i, b, Orders(o7, [], []))
  {
    hide Loop7, IsOrder, Books;
    var rest := historyBooks.Subtract(deviceBooks);
    var objs := rest.Intersect(localBooks);
    left := localBooks;
    o7 := [];
    if objs.m != map[] && !i.ignoreRemovals && !i.email {
      o7 := p.Case7(i.ThumbsAvailable(), objs.m);
      left := localBooks.Subtract(objs);
    }
  }

  /** Case 6 in the context of PrepareActions: what is left of the device books. */
  method RemovedLocally(p: Planner, i: Inputs, ghost b: Subsets, ghost o7: seq<string>, historyBooks: ObjectInfoSet,
      deviceBooks: ObjectInfoSet, localBooks: ObjectInfoSet)
    returns (left: ObjectInfoSet, ghost o6: seq<string>)
    requires p.Valid() && p.cfg == i.cfg && (Active7(i, b) ==> IsOrder(o7, Objs7(i, b).Keys))
    requires p.State() == After7(i, b, Orders(o7, [], []))
    requires historyBooks.m == b.history && localBooks.m == Local7(i, b)
    requires deviceBooks.m == DeviceBooks(i, b, p.State())
    requires {historyBooks, localBooks} !! {p.srcOIS, p.dstOIS, p.deviceThumbs}
    requires if i.TargetExists() then deviceBooks !in {p.srcOIS, p.dstOIS, p.deviceThumbs} else deviceBooks == p.dstOIS
    modifies p, p.dstOIS, p.deviceThumbs
    ensures left == deviceBooks || fresh(left)
    ensures var s7 := After7(i, b, Orders(o7, [], []));
            && (Active6(i, b, s7) ==> IsOrder(o6, Objs6(i, b, s7).Keys))
            && p.State() == After6(i, b, Orders(o7, o6, []), s7)
            && left.m == Device6(i, b, s7, p.State())
    ensures localBooks.m == Local7(i, b) && historyBooks.m == b.history
  {
    hide Loop7, Loop6, IsOrder, Books, After7, Local7, Objs7, Active7;
    var rest := deviceBooks.Subtract(localBooks);
    var objs := rest.Intersect(historyBooks);
    left := deviceBooks;
    o6 := [];
    if objs.m != map[] && !i.email {
      o6 := p.Case6(i.ThumbsAvailable(), historyBooks.m, objs.m);
      left := deviceBooks.Subtract(objs);
    }
  }

  /** Case 3 in the context of PrepareActions. */
  method AddedOrChanged(p: Planner, i: Inputs, ghost b: Subsets, ghost s7: PState, historyBooks: ObjectInfoSet,
      deviceBooks: ObjectInfoSet, localBooks: ObjectInfoSet)
    returns (ghost o3: seq<string>)
    requires p.Valid() && p.cfg == i.cfg
    requires historyBooks.m == b.history && localBooks.m == Local7(i, b)
    requires deviceBooks.m == Device6(i, b, s7, p.State())
    modifies p, p.dstOIS, p.deviceThumbs
    ensures IsOrder(o3, Objs3(i, b, s7, old(p.State())).Keys)
    ensures p.State() == Loop3(i.cfg, i.ThumbsAvailable(), i.email, i.pics, old(p.State()),
              Objs3(i, b, s7, old(p.State())), o3)
  {
    hide Loop3, Local7, Device6;
    var changed := localBooks.DiffByFunc(historyBooks, Unchanged);
    var rest := localBooks.Subtract(deviceBooks);
    var objs := rest.Union(changed);
    o3 := [];
    assert objs.m == Objs3(i, b, s7, p.State());
    if objs.m != map[] {
      o3 := p.Case3(i.ThumbsAvailable(), i.email, i.pics, objs.m);
    } else {
      NoLoop3(i, p.State());
      assert IsOrder([], {}) by { NoOrder(); }
    }
  }

  lemma NoLoop3(i: Inputs, s: PState)
    ensures Loop3(i.cfg, i.ThumbsAvailable(), i.email, i.pics, s, map[], []) == s
  {
  }

  method BooksUnder(cfg: Config, os: ObjectInfoSet, dir: string) returns (books: ObjectInfoSet)
    ensures fresh(books) && IsBooksOf(cfg, os.m, dir, books.m)
  {
    hide IsSubsetByPath, Books;
    var sub := os.SubsetByPath(dir);
    books := BooksIn(cfg, sub);
  }

  method ThumbnailsOn(cfg: Config, os: ObjectInfoSet) returns (thumbs: ObjectInfoSet)
    ensures fresh(thumbs) && IsThumbsOf(cfg, os.m, thumbs.m)
  {
    hide IsSubsetByPath, ThumbFilter;
    var sub := os.SubsetByPath(THUMBNAIL_FOLDER);
    thumbs := KeepThumbnails(cfg, sub);
  }

  /** The e-mail driver enumerates nothing: a copy of the history stands in. */
  method DeviceSet(i: Inputs, hstOIS: ObjectInfoSet) returns (dstOIS: ObjectInfoSet)
    requires hstOIS.m == i.hst
    ensures fresh(dstOIS) && dstOIS.m == i.Device()
  {
    dstOIS := new ObjectInfoSet.Of(i.dst);
    if i.email { dstOIS := hstOIS.Clone(); }
  }

  method BooksOfDevice(i: Inputs, dstOIS: ObjectInfoSet) returns (books: ObjectInfoSet)
    requires dstOIS.m == i.Device()
    ensures if i.TargetExists() then fresh(books) && IsBooksOf(i.cfg, i.Device(), i.cfg.target, books.m)
            else books == dstOIS
  {
    hide IsBooksOf, Find;
    books := dstOIS;
    if i.TargetExists() { books := BooksUnder(i.cfg, dstOIS, i.cfg.target); }
  }

  method ThumbnailsOfDevice(i: Inputs, dstOIS: ObjectInfoSet) returns (thumbs: ObjectInfoSet)
    requires dstOIS.m == i.Device()
    ensures fresh(thumbs) && if i.ThumbsAvailable() then IsThumbsOf(i.cfg, i.Device(), thumbs.m) else thumbs.m == map[]
  {
    hide IsThumbsOf, Find;
    thumbs := new ObjectInfoSet();
    if i.ThumbsAvailable() { thumbs := ThumbnailsOn(i.cfg, dstOIS); }
  }

  /** The start of PrepareActions: the maps, the books in them, and the thumbnails. */
  method Gather(i: Inputs, srcOIS: ObjectInfoSet, localBooks: ObjectInfoSet)
    returns (p: Planner, historyBooks: ObjectInfoSet, deviceBooks: ObjectInfoSet, ghost b: Subsets)
    requires srcOIS.m == i.src && srcOIS != localBooks && IsBooksOf(i.cfg, i.src, i.cfg.source, localBooks.m)
    ensures fresh(p) && fresh(p.dstOIS) && fresh(p.deviceThumbs) && p.srcOIS == srcOIS && p.Valid() && p.cfg == i.cfg
    ensures fresh(historyBooks) && historyBooks !in {p.dstOIS, p.deviceThumbs} && fresh(deviceBooks)
    ensures if i.TargetExists() then deviceBooks !in {p.srcOIS, p.dstOIS, p.deviceThumbs} else deviceBooks == p.dstOIS
    ensures IsSubsets(i, b) && p.State() == i.Start(b.thumbs)
    ensures b.local == localBooks.m && b.history == historyBooks.m && b.device == deviceBooks.m
  {
    hide IsBooksOf, IsThumbsOf, Books, IsSubsets, Find;
    var hstOIS := new ObjectInfoSet.Of(i.hst);
    historyBooks := BooksIn(i.cfg, hstOIS);
    var dstOIS := DeviceSet(i, hstOIS);
    deviceBooks := BooksOfDevice(i, dstOIS);
    var deviceThumbs := ThumbnailsOfDevice(i, dstOIS);
    b := Subsets(localBooks.m, historyBooks.m, deviceBooks.m, deviceThumbs.m);
    SubsetsAre(i, b);
    p := new Planner(i.cfg, srcOIS, dstOIS, deviceThumbs, i.next);
  }

  lemma SubsetsAre(i: Inputs, b: Subsets)
    requires IsBooksOf(i.cfg, i.src, i.cfg.source, b.local) && b.history == Books(i.cfg, i.hst)
    requires i.TargetExists() ==> IsBooksOf(i.cfg, i.Device(), i.cfg.target, b.device)
    requires if i.ThumbsAvailable() then IsThumbsOf(i.cfg, i.Device(), b.thumbs) else b.thumbs == map[]
    ensures IsSubsets(i, b)
  {
    hide IsBooksOf, IsThumbsOf, Books, Find;
  }

  /** PrepareActions.  Without local books it is an error.  Otherwise the planner ends in a state that the functions of
      the plan describe, for the order in which its loops happened to walk their maps.  When the target is missing
      `deviceBooks` is another name for the map of the device, which the loops go on to change. */
  method PrepareActions(i: Inputs) returns (p: Planner?, ghost b: Subsets)
    ensures p == null ==> IsBooksOf(i.cfg, i.src, i.cfg.source, map[])
    ensures p != null ==> fresh(p) && p.Valid() && IsSubsets(i, b) && b.local != map[] && IsPlan(i, b, p.State())
  {
    hide IsBooksOf, IsOrder, Local7, Device6, DeviceBooks, Objs3, Objs6, Objs7, Active7, Active6, IsPlan, IsSubsets,
         Loop3;
    var srcOIS := new ObjectInfoSet.Of(i.src);
    var localBooks := BooksUnder(i.cfg, srcOIS, i.cfg.source);
    if localBooks.m == map[] {
      p := null;
      b := Subsets(map[], map[], map[], map[]);
      return;
    }
    var historyBooks, deviceBooks;
    p, historyBooks, deviceBooks, b := Gather(i, srcOIS, localBooks);
    SeenBooks(i, b, p.State());
    ghost var o7, o6, o3;
    localBooks, o7 := RemovedFromDevice(p, i, b, historyBooks, deviceBooks, localBooks);
    ghost var s7 := p.State();
    SeenBooks(i, b, s7);
    deviceBooks, o6 := RemovedLocally(p, i, b, o7, historyBooks, deviceBooks, localBooks);
    o3 := AddedOrChanged(p, i, b, s7, historyBooks, deviceBooks, localBooks);
    OrdersPlan(i, b, Orders(o7, o6, o3));
  }

  lemma SeenBooks(i: Inputs, b: Subsets, s: PState)
    ensures DeviceBooks(i, b, s) == if i.TargetExists() then b.device else s.dst
  {
  }
}
