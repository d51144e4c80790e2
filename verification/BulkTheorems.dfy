/** What a bulk save guarantees over whole runs, for which hooks. */
module BulkTheorems {
  import opened Wrappers
  import opened AccountColumns
  import opened AccountMutations
  import opened BulkCreate

  /** The mutator of builder i from hook j on. */
  ghost function At(b: Bulk, i: nat, j: nat): (mut: Mutator)
    requires i < |b.hooks| && j <= |b.hooks[i]|
    ensures Level(mut) == i
  {
    WrapFrom(b.hooks[i], i, j)
  }

  ghost predicate Position(b: Bulk, i: nat, j: nat) {
    i < |b.hooks| && j <= |b.hooks[i]|
  }

  ghost predicate AllHooks(b: Bulk, p: Hook -> bool) {
    forall i, j :: 0 <= i < |b.hooks| && 0 <= j < |b.hooks[i]| ==> p(b.hooks[i][j])
  }

  // ---------- every batch is full, whatever the hooks do ----------

  ghost predicate FilledBelow(w: World, l: nat) {
    forall k :: 0 <= k < l && k < |w.specs| ==> w.specs[k].Some?
  }

  ghost predicate FullBatches(b: Bulk, w: World) {
    forall q :: q in w.batches ==> |q.specs| == |b.hooks| && None !in q.specs
  }

  ghost predicate SpecsKept(w: World, w': World) {
    |w.specs| == |w'.specs| && forall k :: 0 <= k < |w.specs| && w.specs[k].Some? ==> w'.specs[k].Some?
  }

  /** A batch is only ever issued with the specs of all builders in it, even if hooks retry, answer on their own,
      swallow errors, or replace mutations: reaching the last core means having passed every check before it. */
  lemma {:induction false} BatchesAreFull(b: Bulk, mut: Mutator, m: nat, w: World)
    requires Fits(b, w) && Level(mut) < |b.hooks| && m < |w.store|
    requires FilledBelow(w, Level(mut)) && FullBatches(b, w)
    ensures var w' := Exec(b, mut, m, w).0;
            FullBatches(b, w') && SpecsKept(w, w')
    decreases |b.hooks| - Level(mut), Size(mut), 0
  {
    match mut
    case Core(i) =>
      if b.check(w.store[Mine(b, w, i)].fields).None? {
        var w1 := Specified(b, w, i, m);
        assert FilledBelow(w1, i + 1);
        if i + 1 < |b.hooks| {
          BatchesAreFull(b, MutatorOf(b, i + 1), Mine(b, w1, i + 1), w1);
        } else {
          assert None !in w1.specs;
        }
      }
    case Wrapped(NilHook, i, j, inner) => BatchesAreFull(b, inner, m, w);
    case Wrapped(Hook(edit, decide, retries, after), i, j, inner) =>
      var w1 := Edited(Log(w, Entered(i, j)), m, edit);
      match decide(w1.store[m].fields) {
        case Stop(out) =>
        case Forward => AttemptsAreFull(b, inner, m, w1, retries);
        case Replace(f) =>
          AttemptsAreFull(b, inner, |w1.store|, w1.(store := w1.store + [Mutation(f, false, None)]), retries);
      }
  }

  lemma {:induction false} AttemptsAreFull(b: Bulk, mut: Mutator, m: nat, w: World, retries: nat)
    requires Fits(b, w) && Level(mut) < |b.hooks| && m < |w.store|
    requires FilledBelow(w, Level(mut)) && FullBatches(b, w)
    ensures var w' := Attempts(b, mut, m, w, retries).0;
            FullBatches(b, w') && SpecsKept(w, w')
    decreases |b.hooks| - Level(mut), Size(mut), retries + 1
  {
    BatchesAreFull(b, mut, m, w);
    var p := Exec(b, mut, m, w);
    if p.1.Failed? && retries > 0 {
      AttemptsAreFull(b, mut, m, p.0, retries - 1);
    }
  }

  // ---------- hooks that call on at most once ----------

  predicate CallsOnce(h: Hook) {
    h.Hook? && h.retries == 0
  }

  /** If no hook retries, a save issues at most one batch. */
  lemma {:induction false} AtMostOneBatch(b: Bulk, i: nat, j: nat, m: nat, w: World)
    requires Position(b, i, j) && Fits(b, w) && m < |w.store|
    requires AllHooks(b, CallsOnce)
    ensures |w.batches| <= |Exec(b, At(b, i, j), m, w).0.batches| <= |w.batches| + 1
    decreases |b.hooks| - i, |b.hooks[i]| - j
  {
    if j == |b.hooks[i]| {
      if b.check(w.store[Mine(b, w, i)].fields).None? && i + 1 < |b.hooks| {
        var w1 := Specified(b, w, i, m);
        AtMostOneBatch(b, i + 1, 0, Mine(b, w1, i + 1), w1);
      }
    } else {
      var h := b.hooks[i][j];
      assert CallsOnce(h);
      var w1 := Edited(Log(w, Entered(i, j)), m, h.edit);
      match h.decide(w1.store[m].fields) {
        case Stop(out) =>
        case Forward => AtMostOneBatch(b, i, j + 1, m, w1);
        case Replace(f) =>
          AtMostOneBatch(b, i, j + 1, |w1.store|, w1.(store := w1.store + [Mutation(f, false, None)]));
      }
    }
  }

  // ---------- every spec of a batch was checked, unless a hook replaces the mutation ----------

  ghost predicate InPlace(h: Hook) {
    h.Hook? && forall f :: !h.decide(f).Replace?
  }

  ghost predicate HooksInPlace(b: Bulk) {
    forall i, j :: 0 <= i < |b.hooks| && 0 <= j < |b.hooks[i]| ==> InPlace(b.hooks[i][j])
  }

  ghost predicate Passing(b: Bulk, specs: seq<Option<Spec>>) {
    forall k :: 0 <= k < |specs| && specs[k].Some? ==> b.check(specs[k].value.fields).None?
  }

  ghost predicate PassingBatches(b: Bulk, w: World) {
    forall q :: q in w.batches ==> Passing(b, q.specs)
  }

  /** With hooks that only edit the mutation in place, retry or not, every spec of every batch passes the check. */
  lemma {:induction false} BatchesPassChecks(b: Bulk, i: nat, j: nat, w: World)
    requires Position(b, i, j) && Fits(b, w) && HooksInPlace(b)
    requires Passing(b, w.specs) && PassingBatches(b, w)
    ensures var w' := Exec(b, At(b, i, j), Mine(b, w, i), w).0;
            w'.current == w.current && Passing(b, w'.specs) && PassingBatches(b, w')
    decreases |b.hooks| - i, |b.hooks[i]| - j, 0
  {
    var m := Mine(b, w, i);
    if j == |b.hooks[i]| {
      if b.check(w.store[m].fields).None? {
        var w1 := Specified(b, w, i, m);
        assert w1.current == w.current;
        if i + 1 < |b.hooks| {
          BatchesPassChecks(b, i + 1, 0, w1);
        }
      }
    } else {
      var h := b.hooks[i][j];
      assert InPlace(h);
      var w1 := Edited(Log(w, Entered(i, j)), m, h.edit);
      if h.decide(w1.store[m].fields).Forward? {
        AttemptsPassChecks(b, i, j + 1, w1, h.retries);
      }
    }
  }

  lemma {:induction false} AttemptsPassChecks(b: Bulk, i: nat, j: nat, w: World, retries: nat)
    requires Position(b, i, j) && Fits(b, w) && HooksInPlace(b)
    requires Passing(b, w.specs) && PassingBatches(b, w)
    ensures var w' := Attempts(b, At(b, i, j), Mine(b, w, i), w, retries).0;
            w'.current == w.current && Passing(b, w'.specs) && PassingBatches(b, w')
    decreases |b.hooks| - i, |b.hooks[i]| - j, retries + 1
  {
    BatchesPassChecks(b, i, j, w);
    var p := Exec(b, At(b, i, j), Mine(b, w, i), w);
    if p.1.Failed? && retries > 0 {
      AttemptsPassChecks(b, i, j, p.0, retries - 1);
    }
  }

  /** A hook that always passes on another mutation with fields f. */
  function Replacing(f: Fields): Hook {
    Hook(x => x, _ => Replace(f), 0, o => o)
  }

  /** The check looks at the builder's mutation, not at the one the hooks pass on: with a replacing hook a batch is
      issued exactly if the original passes, and its spec passes exactly if the replacement would. */
  lemma ReplacementIsNotChecked(check: Fields -> Option<Column>,
                                db: (nat, seq<Option<Spec>>) -> Option<seq<Option<int>>>,
                                original: Fields, f: Fields)
    ensures var b := Bulk([0], [[Replacing(f)]], check, db);
            var w := World([Mutation(original, false, None)], [0], [None], [None], [], []);
            var w' := Exec(b, MutatorOf(b, 0), 0, w).0;
            && (w'.batches != [] <==> check(original).None?)
            && (PassingBatches(b, w') <==> check(original).Some? || check(f).None?)
  {
    var b := Bulk([0], [[Replacing(f)]], check, db);
    var h := Replacing(f);
    var w := World([Mutation(original, false, None)], [0], [None], [None], [], []);
    assert MutatorOf(b, 0) == Wrapped(h, 0, 0, WrapFrom(b.hooks[0], 0, 1)) && WrapFrom(b.hooks[0], 0, 1) == Core(0);
    var w1 := Edited(Log(w, Entered(0, 0)), 0, h.edit);
    var w2 := w1.(store := w1.store + [Mutation(f, false, None)]);
    var p := Exec(b, Core(0), 1, w2);
    assert Exec(b, MutatorOf(b, 0), 0, w).0 == Log(p.0, Left(0, 0));
    if check(original).None? {
      var w3 := Specified(b, w2, 0, 1);
      assert w3.specs == [Some(Spec(f, None))];
      var ok := db(0, w3.specs).Some?;
      assert p.0.batches == [Batch(w3.specs, ok)];
      var q := p.0.batches[0];
      assert q in p.0.batches && q.specs[0] == Some(Spec(f, None));
      assert Passing(b, q.specs) <==> check(f).None?;
    }
  }

  // ---------- a failing check anywhere stops the batch ----------

  /** Property p makes the check fail. */
  ghost predicate Blocker(b: Bulk, k: nat, p: Fields -> bool) {
    k < |b.hooks| && forall f :: p(f) ==> b.check(f).Some?
  }

  /** The edits of the hooks at position i keep p. */
  ghost predicate Keeps(b: Bulk, i: nat, p: Fields -> bool) {
    forall l, f :: i < |b.hooks| && 0 <= l < |b.hooks[i]| && b.hooks[i][l].Hook? && p(f) ==> p(b.hooks[i][l].edit(f))
  }

  /** The mutation of the builder at position k has property p, and the builders that hold it (this one, and any at an
      earlier position) edit it in such a way that this stays so. */
  ghost predicate Held(b: Bulk, w: World, k: nat, p: Fields -> bool)
    requires Fits(b, w)
  {
    && k < |b.hooks| && p(w.store[Mine(b, w, k)].fields)
    && (forall x :: 0 <= x <= k && Mine(b, w, x) == Mine(b, w, k) ==> Keeps(b, x, p))
  }

  /** The mutation passed on at position i is that of the builder at position k only if the hooks at i keep p. */
  ghost predicate Harmless(b: Bulk, i: nat, m: nat, w: World, k: nat, p: Fields -> bool)
    requires Fits(b, w)
  {
    i <= k < |b.hooks| && m < |w.store| && (m == Mine(b, w, k) ==> Keeps(b, i, p))
  }

  /** No batch was issued, and the builder at position k still has its mutation, with property p. */
  ghost predicate StillBlocked(b: Bulk, w: World, w': World, k: nat, p: Fields -> bool)
    requires Fits(b, w) && Fits(b, w') && k < |b.hooks|
  {
    w'.batches == w.batches && Held(b, w', k, p) && Mine(b, w', k) == Mine(b, w, k)
  }

  lemma EditKeepsHeld(b: Bulk, i: nat, j: nat, m: nat, w: World, k: nat, p: Fields -> bool)
    requires Position(b, i, j) && j < |b.hooks[i]| && b.hooks[i][j].Hook? && Fits(b, w)
    requires Held(b, w, k, p) && Harmless(b, i, m, w, k, p)
    ensures Held(b, Edited(Log(w, Entered(i, j)), m, b.hooks[i][j].edit), k, p)
  {
  }

  /** Let some property of builder k's fields make the check fail, and let the hooks of the builders its mutation
      belongs to keep that property when they edit (say, a required field is unset and they do not set it). Then no
      batch is issued, at whatever position k the builder is, and whatever the hooks do: edit other mutations, pass on
      replacements, answer on their own, retry, or turn errors into successes. */
  lemma {:induction false} FailingCheckBlocks(b: Bulk, i: nat, j: nat, m: nat, w: World, k: nat, p: Fields -> bool)
    requires Position(b, i, j) && Fits(b, w)
    requires Blocker(b, k, p) && Held(b, w, k, p) && Harmless(b, i, m, w, k, p)
    ensures StillBlocked(b, w, Exec(b, At(b, i, j), m, w).0, k, p)
    decreases |b.hooks| - i, |b.hooks[i]| - j, 1
  {
    if j == |b.hooks[i]| {
      FailingCheckBlocksCore(b, i, m, w, k, p);
    } else {
      match b.hooks[i][j] {
        case NilHook => FailingCheckBlocks(b, i, j + 1, m, w, k, p);
        case Hook(edit, decide, retries, after) =>
          EditKeepsHeld(b, i, j, m, w, k, p);
          var w1 := Edited(Log(w, Entered(i, j)), m, edit);
          match decide(w1.store[m].fields) {
            case Stop(out) =>
            case Forward => FailingCheckBlocksAttempts(b, i, j + 1, m, w1, k, p, retries);
            case Replace(f) =>
              var w2 := w1.(store := w1.store + [Mutation(f, false, None)]);
              FailingCheckBlocksAttempts(b, i, j + 1, |w1.store|, w2, k, p, retries);
          }
      }
    }
  }

  lemma {:induction false} FailingCheckBlocksCore(b: Bulk, i: nat, m: nat, w: World, k: nat, p: Fields -> bool)
    requires i < |b.hooks| && Fits(b, w)
    requires Blocker(b, k, p) && Held(b, w, k, p) && Harmless(b, i, m, w, k, p)
    ensures StillBlocked(b, w, Exec(b, Core(i), m, w).0, k, p)
    decreases |b.hooks| - i, 0, 0
  {
    if b.check(w.store[Mine(b, w, i)].fields).None? {
      assert i < k;
      var w1 := Specified(b, w, i, m);
      FailingCheckBlocks(b, i + 1, 0, Mine(b, w1, i + 1), w1, k, p);
      var q := Exec(b, MutatorOf(b, i + 1), Mine(b, w1, i + 1), w1);
      assert Exec(b, Core(i), m, w) == Unwound(q, i, m);
      UnwoundKeepsHeld(b, i, q, m, k, p);
    }
  }

  lemma UnwoundKeepsHeld(b: Bulk, i: nat, q: (World, Outcome), m: nat, k: nat, p: Fields -> bool)
    requires i < |b.hooks| && Fits(b, q.0) && m < |q.0.store| && Held(b, q.0, k, p)
    ensures StillBlocked(b, q.0, Unwound(q, i, m).0, k, p)
  {
  }

  lemma {:induction false} FailingCheckBlocksAttempts(b: Bulk, i: nat, j: nat, m: nat, w: World, k: nat,
                                                      p: Fields -> bool,
                                                      retries: nat)
    requires Position(b, i, j) && Fits(b, w)
    requires Blocker(b, k, p) && Held(b, w, k, p) && Harmless(b, i, m, w, k, p)
    ensures StillBlocked(b, w, Attempts(b, At(b, i, j), m, w, retries).0, k, p)
    decreases |b.hooks| - i, |b.hooks[i]| - j, retries + 2
  {
    FailingCheckBlocks(b, i, j, m, w, k, p);
    var q := Exec(b, At(b, i, j), m, w);
    if q.1.Failed? && retries > 0 {
      FailingCheckBlocksAttempts(b, i, j, m, q.0, k, p, retries - 1);
    }
  }

  /** In particular, with the accounts' own check: a builder without a name, whose hooks do not set one, keeps the
      whole batch from being issued. */
  lemma MissingNameBlocks(b: Bulk, valid: (Column, int) -> bool, w: World, k: nat)
    requires Fits(b, w) && k < |b.hooks|
    requires forall f :: b.check(f) == Check(f, valid)
    requires Name !in w.store[Mine(b, w, k)].fields
    requires forall x :: 0 <= x <= k && Mine(b, w, x) == Mine(b, w, k) ==> Keeps(b, x, (f: Fields) => Name !in f)
    ensures Exec(b, MutatorOf(b, 0), Mine(b, w, 0), w).0.batches == w.batches
  {
    var p := (f: Fields) => Name !in f;
    forall x | 0 <= x <= k && Mine(b, w, x) == Mine(b, w, k)
      ensures Keeps(b, x, p)
    {
      assert Keeps(b, x, (f: Fields) => Name !in f);
    }
    forall f | p(f)
      ensures b.check(f).Some?
    {
      CheckMeaning(f, valid);
    }
    assert Blocker(b, k, p) && Held(b, w, k, p);
    FailingCheckBlocks(b, 0, 0, Mine(b, w, 0), w, k, p);
  }
}
