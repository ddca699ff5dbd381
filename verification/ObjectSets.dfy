/** objects/infoset.go in its own form: a set of objects is a map that Add and Delete change in place; the operations
    that combine sets loop over a map in whatever order it is walked and fill a fresh one. */
module ObjectSets {
  import opened Paths
  import Sets = InfoSet
  import opened InfoSet

  class ObjectInfoSet {
    var m: OIS

    constructor ()
      ensures m == map[]
    {
      m := map[];
    }

    constructor Of(os: OIS)
      ensures m == os
    {
      m := os;
    }

    method Clone() returns (nos: ObjectInfoSet)
      ensures fresh(nos) && nos.m == m
    {
      nos := new ObjectInfoSet.Of(m);
    }

    method Find(fullPath: string) returns (r: Option<Obj>)
      ensures r == Sets.Find(m, fullPath)
      ensures r == if fullPath != "" && fullPath in m then Some(m[fullPath]) else None
    {
      if |fullPath| == 0 { return None; }
      if fullPath in m { return Some(m[fullPath]); }
      return None;
    }

    method Add(fullPath: string, fi: Obj)
      modifies this
      ensures m == Put(old(m), fullPath, fi)
      ensures if fullPath == "" then m == old(m) else m == old(m)[fullPath := fi]
    {
      if |fullPath| != 0 { m := m[fullPath := fi]; }
    }

    method Delete(fullPath: string)
      modifies this
      ensures m == Drop(old(m), fullPath)
      ensures if fullPath == "" then m == old(m) else fullPath !in m && m == old(m) - {fullPath}
    {
      if |fullPath| != 0 { m := m - {fullPath}; }
    }

    method SubsetByFunc(f: (string, Obj) -> bool) returns (nos: ObjectInfoSet)
      ensures fresh(nos) && nos.m == Filter(m, f)
      ensures forall k :: k in nos.m <==> k in m && f(k, m[k])
      ensures forall k :: k in nos.m ==> nos.m[k] == m[k]
    {
      nos := new ObjectInfoSet();
      var todo := m.Keys;
      while todo != {}
        invariant fresh(nos) && todo <= m.Keys
        invariant nos.m == map k | k in m && k !in todo && f(k, m[k]) :: m[k]
        decreases todo
      {
        var k :| k in todo;
        todo := todo - {k};
        if f(k, m[k]) { nos.m := nos.m[k := m[k]]; }
      }
    }

    /** The base that is compared with the directory: the path itself for a directory, its parent for a file. */
    method SubsetByPath(dir: string) returns (nos: ObjectInfoSet)
      ensures if dir == "" then nos == this else fresh(nos)
      ensures IsSubsetByPath(m, dir, nos.m)
    {
      if |dir| == 0 { return this; }
      nos := new ObjectInfoSet();
      var todo := m.Keys;
      while todo != {}
        invariant fresh(nos) && todo <= m.Keys
        invariant forall k :: SelectedIn(m, k, dir) && k !in todo ==> TrimPrefix(k, dir + "/") in nos.m
        invariant forall n :: n in nos.m ==> FromSelected(m, dir, n, nos.m[n])
        decreases todo
      {
        var k :| k in todo;
        todo := todo - {k};
        var v := m[k];
        var base := k;
        if !v.dir {
          base := Dir(k);
          if base == "." { continue; }
        } else if base == dir {
          continue;
        }
        if dir <= base {
          assert SelectedIn(m, k, dir);
          nos.m := nos.m[TrimPrefix(k, dir + "/") := v];
        }
      }
    }

    method DiffByFunc(other: ObjectInfoSet, equal: (Obj, Obj) -> bool) returns (nos: ObjectInfoSet)
      ensures fresh(nos) && nos.m == Diff(m, other.m, equal)
      ensures forall k :: k in nos.m <==> k in m && k in other.m && !equal(m[k], other.m[k])
      ensures forall k :: k in nos.m ==> nos.m[k] == m[k]
    {
      nos := new ObjectInfoSet();
      var todo := m.Keys;
      while todo != {}
        invariant fresh(nos) && todo <= m.Keys
        invariant nos.m == map k | k in m && k !in todo && k in other.m && !equal(m[k], other.m[k]) :: m[k]
        decreases todo
      {
        var k :| k in todo;
        todo := todo - {k};
        if k in other.m {
          if !equal(m[k], other.m[k]) { nos.m := nos.m[k := m[k]]; }
        }
      }
    }

    method Subtract(other: ObjectInfoSet) returns (nos: ObjectInfoSet)
      ensures fresh(nos) && nos.m == Sets.Subtract(m, other.m)
      ensures forall k :: k in nos.m <==> k in m && k !in other.m
      ensures forall k :: k in nos.m ==> nos.m[k] == m[k]
    {
      nos := new ObjectInfoSet();
      var todo := m.Keys;
      while todo != {}
        invariant fresh(nos) && todo <= m.Keys
        invariant nos.m == map k | k in m && k !in todo && k !in other.m :: m[k]
        decreases todo
      {
        var k :| k in todo;
        todo := todo - {k};
        if k !in other.m { nos.m := nos.m[k := m[k]]; }
      }
    }

    method Intersect(other: ObjectInfoSet) returns (nos: ObjectInfoSet)
      ensures fresh(nos) && nos.m == Sets.Intersect(m, other.m)
      ensures forall k :: k in nos.m <==> k in m && k in other.m
      ensures forall k :: k in nos.m ==> nos.m[k] == m[k]
    {
      nos := new ObjectInfoSet();
      var todo := m.Keys;
      while todo != {}
        invariant fresh(nos) && todo <= m.Keys
        invariant nos.m == map k | k in m && k !in todo && k in other.m :: m[k]
        decreases todo
      {
        var k :| k in todo;
        todo := todo - {k};
        if k in other.m { nos.m := nos.m[k := m[k]]; }
      }
    }

    method Union(other: ObjectInfoSet) returns (nos: ObjectInfoSet)
      ensures fresh(nos) && nos.m == Sets.Union(m, other.m)
      ensures forall k :: k in nos.m <==> k in m || k in other.m
      ensures forall k :: k in nos.m ==> nos.m[k] == if k in other.m then other.m[k] else m[k]
    {
      nos := new ObjectInfoSet();
      var todo := m.Keys;
      while todo != {}
        invariant fresh(nos) && todo <= m.Keys
        invariant nos.m == map k | k in m && k !in todo :: m[k]
        decreases todo
      {
        var k :| k in todo;
        todo := todo - {k};
        nos.m := nos.m[k := m[k]];
      }
      assert nos.m == m;
      todo := other.m.Keys;
      while todo != {}
        invariant fresh(nos) && todo <= other.m.Keys
        invariant nos.m == m + map k | k in other.m && k !in todo :: other.m[k]
        decreases todo
      {
        var k :| k in todo;
        todo := todo - {k};
        nos.m := nos.m[k := other.m[k]];
      }
      assert nos.m == m + other.m;
    }
  }
}
