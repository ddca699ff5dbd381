/** history/connection.go: a store of numbered steps, each with the objects recorded in it.  A save runs in one
    transaction; if an insert fails, everything is as it was. */
module History {
  import opened InfoSet

  /** The tables: the objects by step and path, the steps, and the counter from which step ids are drawn. */
  datatype Store = Store(rows: map<(int, string), Obj>, steps: set<int>, counter: int)

  /** What is recorded of an object: everything but its identity. */
  function Record(o: Obj): Obj { o.(id := 0) }

  function Records(ois: OIS): OIS {
    map p | p in ois :: Record(ois[p])
  }

  /** The objects of one step. */
  function Contents(st: Store, step: int): OIS {
    map k | k in st.rows && k.0 == step :: k.1 := st.rows[k]
  }

  /** `last` is the id of the newest step, 0 when there is none. */
  ghost predicate IsNewest(steps: set<int>, last: int) {
    if steps == {} then last == 0 else last in steps && forall s :: s in steps ==> s <= last
  }

  ghost predicate StoreOK(st: Store) {
    && (forall k :: k in st.rows ==> k.0 in st.steps)
    && (forall s :: s in st.steps ==> 0 < s <= st.counter)
    && st.counter >= 0
  }

  class Connection {
    var rows: map<(int, string), Obj>
    var steps: set<int>
    var counter: int
    var stepID: int

    ghost function State(): Store
      reads this
    {
      Store(rows, steps, counter)
    }

    ghost predicate Valid()
      reads this
    {
      StoreOK(State()) && IsNewest(steps, stepID)
    }

    constructor ()
      ensures Valid() && stepID == 0 && State() == Store(map[], {}, 0)
    {
      rows, steps, counter, stepID := map[], {}, 0, 0;
    }

    /** lastStep */
    method LastStep() returns (step: int)
      requires forall s :: s in steps ==> 0 < s
      ensures IsNewest(steps, step)
    {
      step := 0;
      var todo := steps;
      while todo != {}
        invariant todo <= steps && (step == 0 || step in steps)
        invariant forall s :: s in steps && s !in todo ==> s <= step
        decreases todo
      {
        SomeStep(todo);
        var s :| s in todo;
        todo := todo - {s};
        if step < s { step := s; }
      }
      if steps != {} { SomeStep(steps); }
    }

    /** nextStep */
    method NextStep() returns (step: int)
      requires StoreOK(State())
      modifies this`steps, this`counter
      ensures rows == old(rows) && StoreOK(State()) && step == counter == old(counter) + 1
      ensures steps == old(steps) + {step}
    {
      counter := counter + 1;
      steps := steps + {counter};
      step := LastStep();
    }

    /** GetObjectInfos: the objects of the current step. */
    method GetObjectInfos() returns (ois: OIS)
      requires Valid()
      ensures ois == Contents(State(), stepID)
    {
      if stepID == 0 {
        assert Contents(State(), 0) == map[];
        return map[];
      }
      ois := map[];
      var todo := rows.Keys;
      while todo != {}
        invariant todo <= rows.Keys
        invariant ois == map k | k in rows && k !in todo && k.0 == stepID :: k.1 := rows[k]
        decreases todo
      {
        var k :| k in todo;
        todo := todo - {k};
        if k.0 == stepID { ois := ois[k.1 := rows[k]]; }
      }
    }

    /** SaveObjectInfos.  `room` is how many inserts the database takes before one fails. */
    method SaveObjectInfos(ois: OIS, room: nat) returns (ok: bool)
      requires Valid()
      modifies this
      ensures Valid()
      ensures ok <==> |ois| < room
      ensures SaveStep(old((State(), stepID)), if ok then Some(ois) else None, (State(), stepID))
    {
      var before, beforeSteps, beforeCounter := rows, steps, counter;
      if room == 0 { return false; }
      var step := NextStep();
      ok := InsertAll(step, ois, room - 1);
      if ok {
        stepID := step;
        SavedRows(before, rows, step, ois);
      } else {
        rows, steps, counter := before, beforeSteps, beforeCounter;
      }
    }

    /** The inserts of a save: all of them, or an error. */
    method InsertAll(step: int, ois: OIS, room: nat) returns (ok: bool)
      requires step in steps && forall k :: k in rows ==> k.0 != step
      modifies this`rows
      ensures ok <==> |ois| <= room
      ensures ok ==> Inserted(old(rows), rows, step, ois, ois.Keys)
    {
      var done := {};
      var todo := ois.Keys;
      while todo != {}
        invariant todo <= ois.Keys && done == ois.Keys - todo && |done| <= room
        invariant Inserted(old(rows), rows, step, ois, done)
        decreases todo
      {
        var p :| p in todo;
        if |done| == room {
          Smaller(done, p, ois.Keys);
          return false;
        }
        InsertOne(old(rows), rows, step, ois, done, p);
        rows := rows[(step, p) := Record(ois[p])];
        todo := todo - {p};
        done := done + {p};
      }
      assert done == ois.Keys;
      return true;
    }
  }

  /** The rows `rows` are those before with the objects `done` recorded under `step`. */
  ghost predicate Inserted(before: map<(int, string), Obj>, rows: map<(int, string), Obj>, step: int, ois: OIS,
                           done: set<string>) {
    done <= ois.Keys && forall k :: RowAt(before, rows, step, ois, done, k)
  }

  predicate RowAt(before: map<(int, string), Obj>, rows: map<(int, string), Obj>, step: int, ois: OIS,
                  done: set<string>, k: (int, string)) {
    && (k in rows <==> k in before || (k.0 == step && k.1 in done))
    && (k in rows ==>
          if k.0 == step then k.1 in ois && rows[k] == Record(ois[k.1]) else k in before && rows[k] == before[k])
  }

  lemma InsertOne(before: map<(int, string), Obj>, rows: map<(int, string), Obj>, step: int, ois: OIS,
                  done: set<string>, p: string)
    requires Inserted(before, rows, step, ois, done) && p in ois && forall k :: k in before ==> k.0 != step
    ensures Inserted(before, rows[(step, p) := Record(ois[p])], step, ois, done + {p})
  {
    var rows' := rows[(step, p) := Record(ois[p])];
    forall k ensures RowAt(before, rows', step, ois, done + {p}, k) { assert RowAt(before, rows, step, ois, done, k); }
  }

  lemma SomeStep(steps: set<int>)
    ensures steps != {} ==> exists s :: s in steps
  {
    assert (forall s :: s !in steps) ==> steps == {};
  }

  lemma Smaller(a: set<string>, p: string, b: set<string>)
    requires a <= b && p in b && p !in a
    ensures |a| + 1 <= |b|
  {
    assert |a + {p}| <= |b| by { SubsetSize(a + {p}, b); }
  }

  lemma SubsetSize(a: set<string>, b: set<string>)
    requires a <= b
    ensures |a| <= |b|
  {
    assert b == a + (b - a);
  }

  /** After all inserts the new step holds the records, and every other step what it held. */
  lemma SavedRows(before: map<(int, string), Obj>, rows: map<(int, string), Obj>, step: int, ois: OIS)
    requires Inserted(before, rows, step, ois, ois.Keys) && forall k :: k in before ==> k.0 != step
    ensures forall x, y :: Contents(Store(rows, x, y), step) == Records(ois)
    ensures forall s, x, y, u, v :: s != step ==> Contents(Store(rows, x, y), s) == Contents(Store(before, u, v), s)
    ensures forall k :: k in rows ==> k in before || k.0 == step
  {
    forall k ensures k in rows ==> k in before || k.0 == step { assert RowAt(before, rows, step, ois, ois.Keys, k); }
    forall x, y ensures Contents(Store(rows, x, y), step) == Records(ois) {
      StepRows(before, rows, step, ois, Store(rows, x, y));
    }
    forall s, x, y, u, v | s != step ensures Contents(Store(rows, x, y), s) == Contents(Store(before, u, v), s) {
      OtherRows(before, rows, step, ois, s, Store(rows, x, y), Store(before, u, v));
    }
  }

  lemma StepRows(before: map<(int, string), Obj>, rows: map<(int, string), Obj>, step: int, ois: OIS, st: Store)
    requires Inserted(before, rows, step, ois, ois.Keys) && (forall k :: k in before ==> k.0 != step) && st.rows == rows
    ensures Contents(st, step) == Records(ois)
  {
    var a, b := Contents(st, step), Records(ois);
    forall p ensures p in a <==> p in b { assert RowAt(before, rows, step, ois, ois.Keys, (step, p)); }
    forall p | p in a ensures a[p] == b[p] { assert RowAt(before, rows, step, ois, ois.Keys, (step, p)); }
  }

  lemma OtherRows(before: map<(int, string), Obj>, rows: map<(int, string), Obj>, step: int, ois: OIS, s: int,
                  st: Store, su: Store)
    requires Inserted(before, rows, step, ois, ois.Keys) && s != step && st.rows == rows && su.rows == before
    ensures Contents(st, s) == Contents(su, s)
  {
    var a, b := Contents(st, s), Contents(su, s);
    forall p ensures p in a <==> p in b { assert RowAt(before, rows, step, ois, ois.Keys, (s, p)); }
    forall p | p in a ensures a[p] == b[p] { assert RowAt(before, rows, step, ois, ois.Keys, (s, p)); }
  }

  // ---------------------------------------------------------------------------------- sequences of saves

  /** One save as SaveObjectInfos leaves it: `to.0` is the store and `to.1` its current step. */
  ghost predicate SaveStep(from: (Store, int), ois: Option<OIS>, to: (Store, int)) {
    match ois
    case None => to == from
    case Some(os) =>
      && to.1 > from.1 && Contents(to.0, to.1) == Records(os)
      && forall s :: s != to.1 ==> Contents(to.0, s) == Contents(from.0, s)
  }

  ghost predicate SaveAt(tr: seq<(Store, int)>, saves: seq<Option<OIS>>, n: int)
    requires |tr| == |saves| + 1
  {
    0 <= n < |saves| ==> SaveStep(tr[n], saves[n], tr[n + 1])
  }

  /** Over any sequence of saves, failed ones among them, step ids strictly increase with every save that succeeds, and
      what a save recorded is read back unchanged ever after. */
  lemma {:induction false} SavesAreKept(tr: seq<(Store, int)>, saves: seq<Option<OIS>>, n: nat, m: nat)
    requires |tr| == |saves| + 1 && (forall j :: SaveAt(tr, saves, j)) && n < m < |tr| && saves[n].Some?
    ensures Contents(tr[m].0, tr[n + 1].1) == Records(saves[n].value)
    ensures tr[n].1 < tr[n + 1].1 <= tr[m].1
    decreases m
  {
    hide Contents, Records;
    assert SaveAt(tr, saves, n) && SaveAt(tr, saves, m - 1);
    if n + 1 < m { SavesAreKept(tr, saves, n, m - 1); }
  }
}
