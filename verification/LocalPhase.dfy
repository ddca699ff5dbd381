/** Removing local files: which directories go with them, and why no removal can fail. */
module LocalPhase {
  import opened Paths
  import opened InfoSet
  import opened Plan
  import opened WellFormed
  import opened Invariant

  // ---------------------------------------------------------------------------------- which directories go

  ghost predicate HasRemoved(R: set<string>, d: string) {
    exists f :: f in R && Below(f, d)
  }

  /** `k` is a removed file or a directory with a removed file below it. */
  ghost predicate Gone(S: OIS, R: set<string>, k: string) {
    k in R || (k in S && S[k].dir && HasRemoved(R, k))
  }

  ghost predicate GoneBelow(S: OIS, R: set<string>, d: string, k: string) {
    k in S && Below(k, d) ==> Gone(S, R, k)
  }

  ghost predicate AllGone(S: OIS, R: set<string>, d: string) {
    forall k :: GoneBelow(S, R, d, k)
  }

  /** The directories that removing the files `R` empties. */
  ghost predicate Pruned(S: OIS, root: string, R: set<string>, d: string) {
    d in S && S[d].dir && Below(d, root) && HasRemoved(R, d) && AllGone(S, R, d)
  }

  ghost predicate SourceAt(S: OIS, root: string, k: string) {
    k in S && k != root ==> Below(k, root) && RootPath(k) && k != "." && Dir(k) in S && S[Dir(k)].dir
  }

  /** The enumerated source is a tree. */
  ghost predicate SourceShape(S: OIS, root: string) {
    root in S && S[root].dir && RootPath(root) && root != "." && forall k :: SourceAt(S, root, k)
  }

  ghost predicate RawAt(S: OIS, root: string, d: string, k: string) {
    d in S && S[d].dir && Below(d, root) && SelectedIn(S, k, d) ==> Below(k, d)
  }

  ghost predicate RawBelow(S: OIS, root: string, d: string, e: string, k: string) {
    AtOrBelow(e, d) ==> RawAt(S, root, e, k)
  }

  /** No local path merely starts with the text of `d`, or of a directory below it, without being in it. */
  ghost predicate RawFree(S: OIS, root: string, d: string) {
    forall e, k :: RawBelow(S, root, d, e, k)
  }

  lemma RawFreeBelow(S: OIS, root: string, d: string, e: string)
    requires RawFree(S, root, d) && AtOrBelow(e, d)
    ensures RawFree(S, root, e)
  {
    forall f, k ensures RawBelow(S, root, e, f, k) {
      assert RawBelow(S, root, d, f, k);
      if AtOrBelow(f, e) && f != e && e != d { BelowTrans(f, e, d); }
    }
  }

  ghost predicate RawEmptied(S: OIS, root: string, R: set<string>, d: string, k: string) {
    Pruned(S, root, R, d) ==> RawAt(S, root, d, k)
  }

  /** No local path merely starts with the text of a directory that removing `R` empties. */
  ghost predicate NoRawEmptied(S: OIS, root: string, R: set<string>) {
    forall d, k :: RawEmptied(S, root, R, d, k)
  }

  /** A directory in an emptied one that a removed file lies below is emptied too. */
  lemma PrunedBelow(S: OIS, root: string, R: set<string>, d: string, e: string)
    requires Pruned(S, root, R, d) && AtOrBelow(e, d) && e in S && S[e].dir && e !in R
    ensures Pruned(S, root, R, e)
  {
    if e != d {
      BelowTrans(e, d, root);
      assert GoneBelow(S, R, d, e);
      forall k ensures GoneBelow(S, R, e, k) {
        assert GoneBelow(S, R, d, k);
        if Below(k, e) { BelowTrans(k, e, d); }
      }
    }
  }

  lemma EmptiedRawFree(S: OIS, root: string, R: set<string>, d: string)
    requires NoRawEmptied(S, root, R) && Pruned(S, root, R, d) && (forall f :: f in R ==> f in S && !S[f].dir)
    ensures RawFree(S, root, d)
  {
    forall e, k ensures RawBelow(S, root, d, e, k) {
      if AtOrBelow(e, d) && e in S && S[e].dir {
        PrunedBelow(S, root, R, d, e);
        assert RawEmptied(S, root, R, e, k);
      }
    }
  }

  ghost predicate FileKept(S: OIS, R: set<string>, src: OIS, k: string) {
    && (k in S && !S[k].dir ==> (k in src <==> k !in R))
    && (k in R ==> k in S && !S[k].dir)
  }

  ghost predicate DirKept(S: OIS, root: string, R: set<string>, src: OIS, k: string) {
    && (k in S && S[k].dir && k !in src ==> Pruned(S, root, R, k))
    && (k in src && k != root ==> Dir(k) in src)
  }

  /** `k` has been emptied but not yet removed. */
  ghost predicate Pending(S: OIS, root: string, R: set<string>, src: OIS, d: string, k: string) {
    k in src && Pruned(S, root, R, k) && RawFree(S, root, k) ==> AtOrBelow(d, k)
  }

  /** The local mirror while the recursion of makeRemoveDirActions stands at `d`: the files are exactly the ones
      not removed, a missing directory is an emptied one, and the emptied ones without raw siblings that are left are
      at or above `d`. */
  ghost predicate LocalUpTo(S: OIS, root: string, R: set<string>, src: OIS, d: string) {
    && (forall k :: FileKept(S, R, src, k)) && (forall k :: DirKept(S, root, R, src, k))
    && (forall k :: k in src ==> k in S && src[k] == S[k])
    && root in src
    && (forall k :: Pending(S, root, R, src, d, k))
  }

  /** Nothing is left to prune. */
  ghost predicate LocalInv(S: OIS, root: string, R: set<string>, src: OIS) {
    LocalUpTo(S, root, R, src, root)
  }

  /** None but emptied directories are gone, and all of these without raw siblings are. */
  lemma PruningExact(S: OIS, root: string, R: set<string>, src: OIS, d: string)
    requires SourceShape(S, root) && LocalInv(S, root, R, src) && d in S && S[d].dir
    ensures d !in src ==> Pruned(S, root, R, d)
    ensures RawFree(S, root, d) ==> (d !in src <==> Pruned(S, root, R, d))
  {
    assert DirKept(S, root, R, src, d) && Pending(S, root, R, src, root, d);
    if Pruned(S, root, R, d) { BelowAsym(d, root); }
  }

  lemma PrunedGrows(S: OIS, root: string, R: set<string>, R': set<string>, d: string)
    requires R <= R' && Pruned(S, root, R, d)
    ensures Pruned(S, root, R', d)
  {
    forall k ensures GoneBelow(S, R', d, k) { assert GoneBelow(S, R, d, k); }
  }

  /** A directory that a new removed file does not lie in is not newly emptied. */
  lemma PrunedNew(S: OIS, root: string, R: set<string>, f: string, d: string)
    requires Pruned(S, root, R + {f}, d) && !Pruned(S, root, R, d) && f in S && !S[f].dir
    ensures Below(f, d)
  {
    if !Below(f, d) {
      forall k ensures GoneBelow(S, R, d, k) {
        assert GoneBelow(S, R + {f}, d, k);
        if k in S && Below(k, d) && S[k].dir && HasRemoved(R + {f}, k) {
          var g :| g in R + {f} && Below(g, k);
          if g == f { BelowTrans(f, k, d); }
        }
      }
      assert AllGone(S, R, d);
    }
  }

  /** Removing one file: the mirror is right up to the directory of the file. */
  lemma RemoveFileUpTo(S: OIS, root: string, R: set<string>, src: OIS, f: string)
    requires SourceShape(S, root) && LocalInv(S, root, R, src) && f in src && !S[f].dir && Below(f, root)
    ensures LocalUpTo(S, root, R + {f}, src - {f}, Dir(f)) && Dir(f) in src && Dir(f) != f
  {
    var R', src' := R + {f}, src - {f};
    DirOfBelow(f, root);
    assert DirKept(S, root, R, src, f);
    forall k ensures FileKept(S, R', src', k) { assert FileKept(S, R, src, k); }
    forall k ensures DirKept(S, root, R', src', k) {
      assert DirKept(S, root, R, src, k) && SourceAt(S, root, k);
      if k in S && S[k].dir && k !in src' { PrunedGrows(S, root, R, R', k); }
    }
    forall k ensures Pending(S, root, R', src', Dir(f), k) {
      assert Pending(S, root, R, src, root, k);
      if k in src' && Pruned(S, root, R', k) && RawFree(S, root, k) {
        if Pruned(S, root, R, k) { BelowAsym(k, root); }
        PrunedNew(S, root, R, f, k);
        AncestorOfDir(f, k);
      }
    }
  }

  /** When the recursion stops at a directory that is not empty, nothing at or above it is emptied, raw siblings
      apart. */
  lemma StopAtNonEmpty(S: OIS, root: string, R: set<string>, src: OIS, d: string)
    requires SourceShape(S, root) && LocalUpTo(S, root, R, src, d) && d in src && S[d].dir && Below(d, root)
    requires !NothingSelected(src, d)
    ensures LocalInv(S, root, R, src)
  {
    var k :| k in src && SelectedIn(src, k, d);
    assert SelectedIn(S, k, d);
    forall e ensures Pending(S, root, R, src, root, e) {
      assert Pending(S, root, R, src, d, e);
      if e in src && Pruned(S, root, R, e) && RawFree(S, root, e) {
        assert RawBelow(S, root, e, d, k) && RawAt(S, root, d, k);
        if d != e { BelowTrans(k, d, e); }
        SurvivorBlocks(S, root, R, src, d, e, k);
      }
    }
  }

  /** A survivor strictly below `d` shows that no directory above it is emptied. */
  lemma SurvivorBlocks(S: OIS, root: string, R: set<string>, src: OIS, d: string, e: string, k: string)
    requires SourceShape(S, root) && LocalUpTo(S, root, R, src, d) && RawFree(S, root, e)
    requires k in src && Below(k, d) && Below(k, e) && Below(e, root)
    ensures !Pruned(S, root, R, e)
  {
    if Pruned(S, root, R, e) {
      assert GoneBelow(S, R, e, k);
      assert FileKept(S, R, src, k);
      PrunedBelow(S, root, R, e, k);
      RawFreeBelow(S, root, e, k);
      assert Pending(S, root, R, src, d, k);
      BelowAsym(k, d);
    }
  }

  /** An emptied directory goes, and the recursion moves to its parent. */
  lemma RemoveDirUpTo(S: OIS, root: string, R: set<string>, src: OIS, d: string, f: string)
    requires SourceShape(S, root) && LocalUpTo(S, root, R, src, d) && d in src && S[d].dir && Below(d, root)
    requires NothingSelected(src, d) && f in R && Below(f, d)
    ensures forall q :: q in src ==> !Below(q, d)
    ensures Dir(d) in src && LocalUpTo(S, root, R, src - {d}, Dir(d)) && Dir(d) != d
  {
    assert SourceAt(S, root, d);
    forall q | q in src ensures !Below(q, d) {
      if Below(q, d) {
        BelowSelected(src, q, d);
      }
    }
    DirOfBelow(d, root);
    assert DirKept(S, root, R, src, d);
    forall k ensures GoneBelow(S, R, d, k) {
      if k in S && Below(k, d) {
        assert FileKept(S, R, src, k) && DirKept(S, root, R, src, k);
      }
    }
    assert Pruned(S, root, R, d);
    var src' := src - {d};
    forall k ensures FileKept(S, R, src', k) { assert FileKept(S, R, src, k); }
    forall k ensures DirKept(S, root, R, src', k) {
      assert DirKept(S, root, R, src, k);
      if k in src' && k != root && Dir(k) == d {
        assert SourceAt(S, root, k);
        DirOfBelow(k, root);
      }
    }
    forall k ensures Pending(S, root, R, src', Dir(d), k) {
      assert Pending(S, root, R, src, d, k);
      if k in src' && Pruned(S, root, R, k) && RawFree(S, root, k) { AncestorOfDir(d, k); }
    }
  }

  // ---------------------------------------------------------------------------------- the planner's local steps

  lemma SourceIsTree(c: Ctx)
    requires CtxOK(c)
    ensures SourceShape(c.i.src, c.i.cfg.source)
  {
    var S, root, t := c.i.src, c.i.cfg.source, c.w0.local;
    assert LocalObject(S, t, root);
    forall k ensures SourceAt(S, root, k) {
      assert LocalAt(c.i.cfg, t, k) && LocalObject(S, t, k) && LocalObject(S, t, Dir(k));
      if k in S && k != root {
        AtRel(k, root);
        DirAt(root, Rel(k, root));
      }
    }
  }

  /** Steps that only touch the local side leave the rest of the planner's state and the device alone. */
  predicate LocalOnly(s: PState, t: PState) {
    t.dst == s.dst && t.thumbs == s.thumbs && t.next == s.next
  }

  ghost predicate DeviceSame(c: Ctx, s: PState, t: PState) {
    Now(c, t).device == Now(c, s).device
  }

  /** makeRemoveDirActions from a directory that a removed file lies in: it ends, every removal is of an empty
      directory, and afterwards no emptied directory is left but such as have raw siblings. */
  lemma {:induction false} RemoveDirsInv(c: Ctx, used: set<string>, s: PState, d: string, R: set<string>, f: string)
    requires Inv(c, used, s)
    requires SourceShape(c.i.src, c.i.cfg.source) && LocalUpTo(c.i.src, c.i.cfg.source, R, s.src, d)
    requires d in s.src && f in R && Below(f, d)
    ensures var t := RemoveDirs(s, d, c.i.cfg.source);
            Inv(c, used, t) && LocalInv(c.i.src, c.i.cfg.source, R, t.src) && LocalOnly(s, t) && DeviceSame(c, s, t)
    decreases |d|
  {
    hide Inv, SourceShape, LocalUpTo, NothingSelected, Below, Now;
    var S, root := c.i.src, c.i.cfg.source;
    if d != root {
      if !NothingSelected(s.src, d) {
        KeepNonEmpty(c, R, s, d, f);
      } else {
        PruneOne(c, used, s, d, R, f);
        RemoveDirsInv(c, used, s.(acts := s.acts + [Action(Src, Remove, s.src[d])], src := Drop(s.src, d)), Dir(d),
            R, f);
      }
    }
  }

  lemma KeepNonEmpty(c: Ctx, R: set<string>, s: PState, d: string, f: string)
    requires SourceShape(c.i.src, c.i.cfg.source) && LocalUpTo(c.i.src, c.i.cfg.source, R, s.src, d)
    requires d in s.src && f in R && Below(f, d) && d != c.i.cfg.source && !NothingSelected(s.src, d)
    ensures LocalUpTo(c.i.src, c.i.cfg.source, R, s.src, c.i.cfg.source) && d != ""
  {
    assert SourceAt(c.i.src, c.i.cfg.source, d);
    DirIsDir(c, R, s, d, f);
    StopAtNonEmpty(c.i.src, c.i.cfg.source, R, s.src, d);
  }

  /** One step of the upward recursion: the directory is empty, so it goes. */
  lemma PruneOne(c: Ctx, used: set<string>, s: PState, d: string, R: set<string>, f: string)
    requires Inv(c, used, s)
    requires SourceShape(c.i.src, c.i.cfg.source) && LocalUpTo(c.i.src, c.i.cfg.source, R, s.src, d)
    requires d in s.src && f in R && Below(f, d) && d != c.i.cfg.source && NothingSelected(s.src, d)
    ensures var t := s.(acts := s.acts + [Action(Src, Remove, s.src[d])], src := Drop(s.src, d));
            && Inv(c, used, t) && LocalUpTo(c.i.src, c.i.cfg.source, R, t.src, Dir(d)) && DeviceSame(c, s, t)
            && Dir(d) in t.src && Below(f, Dir(d)) && |Dir(d)| < |d| && d != ""
  {
    hide Inv, CtxOK, Now, Pending, Pruned, FileKept, DirKept;
    var S, root := c.i.src, c.i.cfg.source;
    InvCtx(c, used, s);
    assert SourceAt(S, root, d);
    DirOfBelow(d, root);
    DirIsDir(c, R, s, d, f);
    RemoveDirUpTo(S, root, R, s.src, d, f);
    SourcePath(c, d);
    InvRemoveSrc(c, used, used, s, s.src[d],
        s.(acts := s.acts + [Action(Src, Remove, s.src[d])], src := Drop(s.src, d)));
    BelowTrans(f, d, Dir(d));
  }

  lemma DirIsDir(c: Ctx, R: set<string>, s: PState, d: string, f: string)
    requires LocalUpTo(c.i.src, c.i.cfg.source, R, s.src, d) && SourceShape(c.i.src, c.i.cfg.source)
    requires d in s.src && f in R && Below(f, d)
    ensures c.i.src[d].dir
  {
    var S, root := c.i.src, c.i.cfg.source;
    FileHasDirs(S, root, R, s.src, d, f);
  }

  /** Whatever is above an entry of the tree is a directory. */
  lemma {:induction false} AboveIsDir(S: OIS, root: string, f: string, d: string)
    requires SourceShape(S, root) && f in S && Below(f, d) && AtOrBelow(d, root)
    ensures d in S && S[d].dir
    decreases |f|
  {
    if d != root { BelowTrans(f, d, root); }
    assert SourceAt(S, root, f);
    DirOfBelow(f, d);
    if Dir(f) != d { AboveIsDir(S, root, Dir(f), d); }
  }

  lemma FileHasDirs(S: OIS, root: string, R: set<string>, src: OIS, d: string, f: string)
    requires SourceShape(S, root) && LocalUpTo(S, root, R, src, d) && d in src && f in R && Below(f, d)
    ensures S[d].dir
  {
    assert FileKept(S, R, src, f) && SourceAt(S, root, d);
    AboveIsDir(S, root, f, d);
  }

  /** makeRemoveActions for a local file. */
  lemma RemoveObjectInv(c: Ctx, used: set<string>, used': set<string>, s: PState, obj: Obj, R: set<string>)
    requires Inv(c, used, s) && used <= used'
    requires SourceShape(c.i.src, c.i.cfg.source) && LocalInv(c.i.src, c.i.cfg.source, R, s.src)
    requires obj.path in s.src && !c.i.src[obj.path].dir && obj.path in c.okSrc
    requires obj == s.src[obj.path] || exists k :: k in c.i.hst && k in used' && k !in used && obj == c.i.hst[k]
    ensures var t := RemoveObject(s, obj, c.i.cfg.source);
            && Inv(c, used', t) && LocalInv(c.i.src, c.i.cfg.source, R + {obj.path}, t.src)
            && LocalOnly(s, t) && DeviceSame(c, s, t)
  {
    hide Inv;
    var S, root, f := c.i.src, c.i.cfg.source, obj.path;
    assert SourceAt(S, root, f);
    DirOfBelow(f, root);
    assert Dir(f) != ".";
    var t := RemoveSrc(s, obj);
    InvRemoveSrc(c, used, used', s, obj, t);
    RemoveFileUpTo(S, root, R, s.src, f);
    RemoveDirsInv(c, used', t, Dir(f), R + {f}, f);
  }

  lemma FoundFile(S: OIS, root: string, R: set<string>, src: OIS, p: string)
    requires SourceShape(S, root) && LocalInv(S, root, R, src) && p in S && !S[p].dir
    ensures p != "" && (p !in src ==> p in R) && (p in src ==> src[p] == S[p])
  {
    hide DirKept, Pending, RelClean;
    assert FileKept(S, R, src, p) && SourceAt(S, root, p);
  }

  lemma InvCtx(c: Ctx, used: set<string>, s: PState)
    requires Inv(c, used, s)
    ensures CtxOK(c)
  {
  }

  lemma SourcePath(c: Ctx, p: string)
    requires CtxOK(c) && p in c.i.src
    ensures c.i.src[p].path == p
  {
    hide WorldOK, DeviceView, HistoryView, OwnObjects, NoRawKeys;
    assert LocalObject(c.i.src, c.w0.local, p);
  }

  lemma RemoveIfFoundInv(c: Ctx, used: set<string>, s: PState, p: string, R: set<string>)
    requires Inv(c, used, s)
    requires SourceShape(c.i.src, c.i.cfg.source) && LocalInv(c.i.src, c.i.cfg.source, R, s.src)
    requires p in c.i.src ==> !c.i.src[p].dir && p in c.okSrc
    ensures var t := RemoveIfFound(s, p, c.i.cfg.source);
            && Inv(c, used, t) && LocalInv(c.i.src, c.i.cfg.source, if p in c.i.src then R + {p} else R, t.src)
            && LocalOnly(s, t) && DeviceSame(c, s, t)
  {
    hide Inv, SourceShape, RemoveObject, CtxOK, RemoveDirs, FileKept, DirKept, Pending, Now;
    InvCtx(c, used, s);
    if p in c.i.src {
      FoundFile(c.i.src, c.i.cfg.source, R, s.src, p);
      SourcePath(c, p);
    }
    if p in s.src {
      RemoveObjectInv(c, used, used, s, s.src[p], R);
    } else if p in c.i.src {
      assert R + {p} == R;
    }
  }
}
