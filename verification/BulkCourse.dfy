/** How far a bulk save gets, and what the batch is then made of: only the way down through hooks and checks, without
    anything of the way back. */
module BulkCourse {
  import opened Wrappers
  import opened AccountColumns
  import opened AccountMutations
  import opened BulkCreate
  import opened BulkTheorems

  /** A hook or a check refuses; a hook succeeds on its own; or the batch is put together from these fields. */
  datatype Course = Refused | Answered(builder: nat, hook: nat) | Reached(sent: seq<Fields>)

  /** Every builder holds one of the mutations. */
  ghost predicate Holds(b: Bulk, current: seq<nat>, store: seq<Fields>) {
    && |b.builders| == |b.hooks|
    && (forall k :: 0 <= k < |b.builders| ==> b.builders[k] < |current|)
    && (forall x :: 0 <= x < |current| ==> current[x] < |store|)
  }

  /** The course from hook j of position i on, where `current` says which mutation each builder holds, `store` holds the
      fields of every mutation, mutation m is being passed on, and `sent` holds the fields of the specs so far. */
  function CourseOf(b: Bulk, current: seq<nat>, store: seq<Fields>, i: nat, j: nat, m: nat,
                    sent: seq<Fields>): (c: Course)
    requires i < |b.hooks| && j <= |b.hooks[i]| && m < |store| && |sent| == i && Holds(b, current, store)
    ensures c.Reached? ==> |c.sent| == |b.hooks|
    ensures c.Answered? ==> i <= c.builder < |b.hooks| && (c.builder == i ==> j <= c.hook)
    decreases |b.hooks| - i, |b.hooks[i]| - j
  {
    if j == |b.hooks[i]| then
      if b.check(store[current[b.builders[i]]]).Some? then Refused
      else if i + 1 < |b.hooks| then
        var taken := current[b.builders[i] := m];
        CourseOf(b, taken, store, i + 1, 0, taken[b.builders[i + 1]], sent + [store[m]])
      else Reached(sent + [store[m]])
    else
      match b.hooks[i][j]
      case NilHook => CourseOf(b, current, store, i, j + 1, m, sent)
      case Hook(edit, decide, _, _) =>
        var s := store[m := edit(store[m])];
        match decide(s[m])
        case Stop(Failed(_)) => Refused
        case Stop(Done) => Answered(i, j)
        case Forward => CourseOf(b, current, s, i, j + 1, m, sent)
        case Replace(f) => CourseOf(b, current, s + [f], i, j + 1, |s|, sent)
  }

  function FieldsOf(store: seq<Mutation>): (fs: seq<Fields>)
    ensures |fs| == |store| && forall x :: 0 <= x < |store| ==> fs[x] == store[x].fields
  {
    seq(|store|, x requires 0 <= x < |store| => store[x].fields)
  }

  /** The course of a whole save. */
  function SaveCourse(b: Bulk, w: World): Course
    requires |b.hooks| > 0 && Fits(b, w)
  {
    CourseOf(b, w.current, FieldsOf(w.store), 0, 0, Mine(b, w, 0), [])
  }

  function SpecsOf(fs: seq<Fields>): (specs: seq<Option<Spec>>)
    ensures |specs| == |fs| && forall k :: 0 <= k < |fs| ==> specs[k] == Some(Spec(fs[k], None))
  {
    seq(|fs|, k requires 0 <= k < |fs| => Some(Spec(fs[k], None)))
  }

  predicate Accepted(b: Bulk, n: nat, c: Course) {
    c.Reached? && b.db(n, SpecsOf(c.sent)).Some?
  }

  /** The batches a course issues, when n were issued before. */
  function BatchesOf(b: Bulk, n: nat, c: Course): seq<Batch> {
    if c.Reached? then [Batch(SpecsOf(c.sent), Accepted(b, n, c))] else []
  }

  /** The world at position i: what the builders hold, the fields in the store, and the specs so far. */
  ghost predicate Tracks(b: Bulk, w: World, current: seq<nat>, store: seq<Fields>, i: nat, sent: seq<Fields>) {
    && Fits(b, w) && Holds(b, current, store) && |sent| == i <= |b.hooks| && |store| == |w.store|
    && w.current == current
    && (forall x :: 0 <= x < |store| ==> w.store[x].fields == store[x])
    && (forall k :: 0 <= k < i ==> w.specs[k] == Some(Spec(sent[k], None)))
  }

  /** What one hook that calls on at most once does. */
  lemma HookRun(b: Bulk, i: nat, j: nat, m: nat, w: World)
    requires Position(b, i, j + 1) && CallsOnce(b.hooks[i][j]) && Fits(b, w) && m < |w.store|
    ensures var h := b.hooks[i][j];
            var w1 := Edited(Log(w, Entered(i, j)), m, h.edit);
            Exec(b, At(b, i, j), m, w) ==
            match h.decide(w1.store[m].fields)
            case Stop(out) => (Log(w1, Left(i, j)), out)
            case Forward =>
              var p := Exec(b, At(b, i, j + 1), m, w1);
              (Log(p.0, Left(i, j)), h.after(p.1))
            case Replace(f) =>
              var p := Exec(b, At(b, i, j + 1), |w1.store|, w1.(store := w1.store + [Mutation(f, false, None)]));
              (Log(p.0, Left(i, j)), h.after(p.1))
  {
  }

  /** Hooks that call on at most once: the run issues exactly the batch of its course. */
  lemma {:induction false} RunIssues(b: Bulk, current: seq<nat>, store: seq<Fields>, i: nat, j: nat, m: nat,
                                     sent: seq<Fields>, w: World)
    requires Position(b, i, j) && Tracks(b, w, current, store, i, sent) && m < |store|
    requires AllHooks(b, CallsOnce)
    ensures Exec(b, At(b, i, j), m, w).0.batches ==
            w.batches + BatchesOf(b, |w.batches|, CourseOf(b, current, store, i, j, m, sent))
    decreases |b.hooks| - i, |b.hooks[i]| - j
  {
    if j == |b.hooks[i]| {
      if b.check(store[current[b.builders[i]]]).None? {
        var w1 := Specified(b, w, i, m);
        var sent1 := sent + [store[m]];
        if i + 1 < |b.hooks| {
          RunIssues(b, w1.current, store, i + 1, 0, Mine(b, w1, i + 1), sent1, w1);
        } else {
          assert w1.specs == SpecsOf(sent1);
        }
      }
    } else {
      var h := b.hooks[i][j];
      assert CallsOnce(h);
      HookRun(b, i, j, m, w);
      var w1 := Edited(Log(w, Entered(i, j)), m, h.edit);
      var s := store[m := h.edit(store[m])];
      match h.decide(s[m]) {
        case Stop(out) =>
        case Forward => RunIssues(b, current, s, i, j + 1, m, sent, w1);
        case Replace(f) =>
          RunIssues(b, current, s + [f], i, j + 1, |s|, sent, w1.(store := w1.store + [Mutation(f, false, None)]));
      }
    }
  }

  /** What a save issues, for any hooks that call on at most once, whatever they do to the outcome: the one batch its
      course reaches. Its specs carry what the hooks passed on, which need not be what was checked: so the batch
      passes the check exactly if all of that would. */
  lemma IssuedBatch(b: Bulk, w: World)
    requires |b.hooks| > 0 && Fits(b, w) && AllHooks(b, CallsOnce)
    ensures var w' := Exec(b, MutatorOf(b, 0), Mine(b, w, 0), w).0;
            var c := SaveCourse(b, w);
            && w'.batches == w.batches + BatchesOf(b, |w.batches|, c)
            && (PassingBatches(b, w) ==>
                  (PassingBatches(b, w') <==> (c.Reached? ==> forall f :: f in c.sent ==> b.check(f).None?)))
  {
    var c := SaveCourse(b, w);
    RunIssues(b, w.current, FieldsOf(w.store), 0, 0, Mine(b, w, 0), [], w);
    var w' := Exec(b, MutatorOf(b, 0), Mine(b, w, 0), w).0;
    if c.Reached? {
      var q := Batch(SpecsOf(c.sent), Accepted(b, |w.batches|, c));
      assert w'.batches == w.batches + [q];
      assert forall p :: p in w'.batches <==> p in w.batches || p == q;
      assert Passing(b, q.specs) <==> forall f :: f in c.sent ==> b.check(f).None? by {
        if Passing(b, q.specs) {
          forall f | f in c.sent
            ensures b.check(f).None?
          {
            var k :| 0 <= k < |c.sent| && c.sent[k] == f;
            assert q.specs[k] == Some(Spec(f, None));
          }
        }
      }
    }
  }

  // ---------- every builder on its own ----------

  /** What the hooks of one builder make of it: the fields its own mutation ends up with, and the fields of the
      mutation that is passed on, which is its own as long as no hook replaces it. None if a hook does not call on. */
  function Through(hooks: seq<Hook>, own: Fields, passed: Fields, same: bool): Option<(Fields, Fields)> {
    if hooks == [] then Some((own, passed))
    else
      match hooks[0]
      case NilHook => Through(hooks[1..], own, passed, same)
      case Hook(edit, decide, _, _) =>
        var p := edit(passed);
        var o := if same then p else own;
        match decide(p)
        case Stop(_) => None
        case Forward => Through(hooks[1..], o, p, same)
        case Replace(f) => Through(hooks[1..], o, f, false)
  }

  /** The fields a builder sends, if the fields it ends up with pass the check. */
  function Vetted(b: Bulk, through: Option<(Fields, Fields)>): Option<Fields> {
    if through.Some? && b.check(through.value.0).None? then Some(through.value.1) else None
  }

  /** The fields a builder that starts with fields f sends. */
  function Sends(b: Bulk, k: nat, f: Fields): Option<Fields>
    requires k < |b.hooks|
  {
    Vetted(b, Through(b.hooks[k], f, f, true))
  }

  /** The builders after position i are different ones and still have their fields, and the mutation being passed on is
      none of theirs. */
  ghost predicate Ahead(b: Bulk, current: seq<nat>, store: seq<Fields>, fs: seq<Fields>, i: nat, m: nat) {
    && Holds(b, current, store) && |fs| == |b.hooks|
    && (forall x, y :: i <= x < y < |b.hooks| ==> current[b.builders[x]] != current[b.builders[y]])
    && (forall k :: i < k < |b.hooks| ==> store[current[b.builders[k]]] == fs[k] && current[b.builders[k]] != m)
  }

  ghost predicate AllSend(b: Bulk, fs: seq<Fields>, from: nat)
    requires |fs| == |b.hooks|
  {
    forall k :: from <= k < |b.hooks| ==> Sends(b, k, fs[k]).Some?
  }

  lemma {:induction false} CourseByBuilder(b: Bulk, current: seq<nat>, store: seq<Fields>, fs: seq<Fields>, i: nat,
                                           j: nat, m: nat, sent: seq<Fields>)
    requires Position(b, i, j) && m < |store| && |sent| == i
    requires Ahead(b, current, store, fs, i, m)
    ensures var c := CourseOf(b, current, store, i, j, m, sent);
            var own := current[b.builders[i]];
            var mine := Vetted(b, Through(b.hooks[i][j..], store[own], store[m], m == own));
            && (c.Reached? <==> mine.Some? && AllSend(b, fs, i + 1))
            && (c.Reached? ==> c.sent[..i] == sent && c.sent[i] == mine.value
                               && forall k :: i < k < |b.hooks| ==> c.sent[k] == Sends(b, k, fs[k]).value)
    decreases |b.hooks| - i, |b.hooks[i]| - j, 1
  {
    if j == |b.hooks[i]| {
      if b.check(store[current[b.builders[i]]]).None? && i + 1 < |b.hooks| {
        CourseByBuilderNext(b, current[b.builders[i] := m], store, fs, i, m, sent);
      }
    } else {
      var h := b.hooks[i][j];
      assert b.hooks[i][j..][0] == h && b.hooks[i][j..][1..] == b.hooks[i][j + 1..];
      if h.NilHook? {
        CourseByBuilder(b, current, store, fs, i, j + 1, m, sent);
      } else {
        var s := store[m := h.edit(store[m])];
        match h.decide(s[m]) {
          case Stop(out) =>
          case Forward => CourseByBuilder(b, current, s, fs, i, j + 1, m, sent);
          case Replace(f) => CourseByBuilder(b, current, s + [f], fs, i, j + 1, |s|, sent);
        }
      }
    }
  }

  /** From a position whose check passed to the next one. */
  lemma {:induction false} CourseByBuilderNext(b: Bulk, current: seq<nat>, store: seq<Fields>, fs: seq<Fields>, i: nat,
                                               m: nat, sent: seq<Fields>)
    requires i + 1 < |b.hooks| && m < |store| && |sent| == i && Ahead(b, current, store, fs, i, m)
    ensures var c := CourseOf(b, current, store, i + 1, 0, current[b.builders[i + 1]], sent + [store[m]]);
            && (c.Reached? <==> AllSend(b, fs, i + 1))
            && (c.Reached? ==> c.sent[..i] == sent && c.sent[i] == store[m]
                               && forall k :: i < k < |b.hooks| ==> c.sent[k] == Sends(b, k, fs[k]).value)
    decreases |b.hooks| - i, 0, 0
  {
    var sent1 := sent + [store[m]];
    var next := current[b.builders[i + 1]];
    CourseByBuilder(b, current, store, fs, i + 1, 0, next, sent1);
    assert b.hooks[i + 1][0..] == b.hooks[i + 1];
    assert AllSend(b, fs, i + 1) <==> Sends(b, i + 1, fs[i + 1]).Some? && AllSend(b, fs, i + 2);
    var c := CourseOf(b, current, store, i + 1, 0, next, sent1);
    if c.Reached? {
      assert c.sent[..i + 1] == sent1;
      assert c.sent[..i] == c.sent[..i + 1][..i] && c.sent[i] == c.sent[..i + 1][i];
    }
  }

  /** When every builder is listed once and has its own mutation, a batch is reached exactly if each builder, taken
      alone, gets through its hooks and its check; and it is made of what each one alone sends. */
  lemma ReachedIffEachSends(b: Bulk, w: World)
    requires |b.hooks| > 0 && Fits(b, w)
    requires forall x, y :: 0 <= x < y < |b.hooks| ==> Mine(b, w, x) != Mine(b, w, y)
    ensures var c := SaveCourse(b, w);
            && (c.Reached? <==> forall k :: 0 <= k < |b.hooks| ==> Sends(b, k, w.store[Mine(b, w, k)].fields).Some?)
            && (c.Reached? ==>
                forall k :: 0 <= k < |b.hooks| ==> c.sent[k] == Sends(b, k, w.store[Mine(b, w, k)].fields).value)
  {
    var store := FieldsOf(w.store);
    var fs := seq(|b.hooks|, k requires 0 <= k < |b.hooks| => store[Mine(b, w, k)]);
    assert Ahead(b, w.current, store, fs, 0, Mine(b, w, 0)) by {
      forall x, y | 0 <= x < y < |b.hooks|
        ensures w.current[b.builders[x]] != w.current[b.builders[y]]
      {
        assert Mine(b, w, x) != Mine(b, w, y);
      }
      forall k | 0 < k < |b.hooks|
        ensures w.current[b.builders[k]] != Mine(b, w, 0)
      {
        assert Mine(b, w, 0) != Mine(b, w, k);
      }
    }
    CourseByBuilder(b, w.current, store, fs, 0, 0, Mine(b, w, 0), []);
    assert b.hooks[0][0..] == b.hooks[0];
    assert forall k :: 0 <= k < |b.hooks| ==> fs[k] == w.store[Mine(b, w, k)].fields;
    assert (forall k :: 0 <= k < |b.hooks| ==> Sends(b, k, fs[k]).Some?) <==>
             Sends(b, 0, fs[0]).Some? && AllSend(b, fs, 1);
  }

  // ---------- a builder listed twice ----------

  /** A builder listed twice takes over what its hooks pass on the first time, so that this is what is checked, and
      passed on to its hooks, the second time: with a replacing hook no batch is issued unless the replacement passes
      too, and then both specs are the replacement. */
  lemma ListedTwice(check: Fields -> Option<Column>, db: (nat, seq<Option<Spec>>) -> Option<seq<Option<int>>>,
                    original: Fields, f: Fields)
    ensures var b := Bulk([0, 0], [[Replacing(f)], [Replacing(f)]], check, db);
            var w := World([Mutation(original, false, None)], [0], [None, None], [None, None], [], []);
            SaveCourse(b, w) == if check(original).None? && check(f).None? then Reached([f, f]) else Refused
  {
    var b := Bulk([0, 0], [[Replacing(f)], [Replacing(f)]], check, db);
    var w := World([Mutation(original, false, None)], [0], [None, None], [None, None], [], []);
    var store := FieldsOf(w.store);
    assert store == [original];
    var s1 := store + [f];
    assert SaveCourse(b, w) == CourseOf(b, [0], s1, 0, 1, 1, []) by {
      assert store[0 := original] == store;
    }
    if check(original).None? {
      assert [0][0 := 1] == [1];
      assert SaveCourse(b, w) == CourseOf(b, [1], s1, 1, 0, 1, [] + [f]);
      var s2 := s1 + [f];
      assert CourseOf(b, [1], s1, 1, 0, 1, [] + [f]) == CourseOf(b, [1], s2, 1, 1, 2, [] + [f]) by {
        assert s1[1 := f] == s1;
      }
    }
  }
}
