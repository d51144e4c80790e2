/** What a bulk save sends for each builder, and what it reports: the node a mutation exposes when it succeeds, and the
    error when it fails. */
module BulkReports {
  import opened Wrappers
  import opened AccountMutations
  import opened BulkCreate
  import opened BulkTheorems
  import opened BulkCourse
  import opened BulkOutcome

  ghost predicate Listed(b: Bulk, current: seq<nat>) {
    Proper(b) && forall k :: 0 <= k < |b.hooks| ==> b.builders[k] < |current|
  }

  /** From position i on, the builders are different ones and each holds a mutation of its own. */
  ghost predicate OwnEach(b: Bulk, current: seq<nat>, i: nat)
    requires Listed(b, current)
  {
    forall x, y :: i <= x < y < |b.hooks| ==> current[b.builders[x]] != current[b.builders[y]]
  }

  /** ... and those after position i do not hold m. */
  ghost predicate Apart(b: Bulk, current: seq<nat>, i: nat, m: nat)
    requires Listed(b, current)
  {
    OwnEach(b, current, i) && forall k :: i < k < |b.hooks| ==> current[b.builders[k]] != m
  }

  /** From position i on, every mutation that is held is done and exposes the node at its builder's position. */
  ghost predicate Exposed(b: Bulk, w: World, i: nat)
    requires Fits(b, w)
  {
    forall k :: i <= k < |b.hooks| ==>
      var m := w.store[w.current[b.builders[k]]];
      m.node == Some(k) && m.done
  }

  /** A run on n mutations that was handed m at position i leaves there m or a new one, and after it what was held or a
      new one. */
  ghost predicate Leaves(b: Bulk, n: nat, current: seq<nat>, current': seq<nat>, i: nat, m: nat)
    requires Listed(b, current) && Listed(b, current')
  {
    && (i < |b.hooks| ==> current'[b.builders[i]] == m || current'[b.builders[i]] >= n)
    && (forall k :: i < k < |b.hooks| ==>
          current'[b.builders[k]] == current[b.builders[k]] || current'[b.builders[k]] >= n)
  }

  /** What a successful run from position i that was handed m leaves behind. */
  ghost predicate OwnMet(b: Bulk, w: World, w': World, i: nat, m: nat)
    requires Fits(b, w) && Fits(b, w')
  {
    && OwnEach(b, w'.current, i) && Exposed(b, w', i)
    && Leaves(b, |w.store|, w.current, w'.current, i, m)
  }

  lemma {:induction false} OwnRun(b: Bulk, i: nat, j: nat, m: nat, w: World)
    requires Position(b, i, j) && Fits(b, w) && m < |w.store|
    requires AllTransparent(b) && FilledBelow(w, i) && Apart(b, w.current, i, m)
    ensures var (w', out) := Exec(b, At(b, i, j), m, w);
            out.Done? ==> OwnMet(b, w, w', i, m)
    decreases |b.hooks| - i, |b.hooks[i]| - j, 2
  {
    if j == |b.hooks[i]| {
      OwnCore(b, i, m, w);
    } else {
      var h := b.hooks[i][j];
      assert Transparent(h);
      var w1 := Edited(Log(w, Entered(i, j)), m, h.edit);
      match h.decide(w1.store[m].fields) {
        case Stop(out) =>
        case Forward => OwnCall(b, i, j, m, w, w1, m);
        case Replace(f) => OwnCall(b, i, j, m, w, w1.(store := w1.store + [Mutation(f, false, None)]), |w1.store|);
      }
    }
  }

  /** A hook calls on, with the mutation m it was handed or a new one. */
  lemma {:induction false} OwnCall(b: Bulk, i: nat, j: nat, m: nat, w: World, w1: World, m1: nat)
    requires Position(b, i, j + 1) && Fits(b, w) && Fits(b, w1) && m1 < |w1.store| && |w.store| <= |w1.store|
    requires w1.current == w.current && w1.specs == w.specs
    requires AllTransparent(b) && FilledBelow(w, i) && Apart(b, w.current, i, m) && (m1 == m || m1 >= |w.store|)
    ensures var (w2, out) := Exec(b, At(b, i, j + 1), m1, w1);
            b.hooks[i][j].after(out).Done? ==> OwnMet(b, w, Log(w2, Left(i, j)), i, m)
    decreases |b.hooks| - i, |b.hooks[i]| - j, 1
  {
    assert Transparent(b.hooks[i][j]);
    OwnRun(b, i, j + 1, m1, w1);
  }

  lemma {:induction false} OwnCore(b: Bulk, i: nat, m: nat, w: World)
    requires i < |b.hooks| && Fits(b, w) && m < |w.store|
    requires AllTransparent(b) && FilledBelow(w, i) && Apart(b, w.current, i, m)
    ensures var (w', out) := Exec(b, Core(i), m, w);
            out.Done? ==> OwnMet(b, w, w', i, m)
    decreases |b.hooks| - i, 0, 1
  {
    if b.check(w.store[Mine(b, w, i)].fields).None? {
      if i + 1 < |b.hooks| {
        OwnNext(b, i, m, w);
      } else {
        OwnLast(b, i, m, w);
      }
    }
  }

  /** The last position, once it has its spec. */
  lemma OwnLast(b: Bulk, i: nat, m: nat, w: World)
    requires i + 1 == |b.hooks| && Fits(b, w) && m < |w.store| && Apart(b, w.current, i, m)
    requires b.check(w.store[Mine(b, w, i)].fields).None?
    ensures var (w', out) := Exec(b, Core(i), m, w);
            out.Done? ==> OwnMet(b, w, w', i, m)
  {
    assert Exec(b, Core(i), m, w) == Unwound(Insert(b, Specified(b, w, i, m)), i, m);
  }

  /** From position i, which has its spec, to the next one and back. */
  lemma {:induction false} OwnNext(b: Bulk, i: nat, m: nat, w: World)
    requires i + 1 < |b.hooks| && Fits(b, w) && m < |w.store|
    requires AllTransparent(b) && FilledBelow(w, i) && Apart(b, w.current, i, m)
    requires b.check(w.store[Mine(b, w, i)].fields).None?
    ensures var (w', out) := Exec(b, Core(i), m, w);
            out.Done? ==> OwnMet(b, w, w', i, m)
    decreases |b.hooks| - i, 0, 0
  {
    var w1 := Specified(b, w, i, m);
    DistinctBuilders(b, w.current, i);
    var next := Mine(b, w1, i + 1);
    forall x, y | i + 1 <= x < y < |b.hooks|
      ensures w1.current[b.builders[x]] != w1.current[b.builders[y]]
    {
      assert b.builders[i] != b.builders[x] && b.builders[i] != b.builders[y];
    }
    OwnRun(b, i + 1, 0, next, w1);
    TransparentRun(b, i + 1, 0, next, w1);
    var p := Exec(b, MutatorOf(b, i + 1), next, w1);
    assert Exec(b, Core(i), m, w) == Unwound(p, i, m);
    if p.1.Done? {
      OthersKeptStep(b, w, p.0, i, m);
      OwnCompleted(b, i, m, w, w1, p.0);
    }
  }

  lemma DistinctBuilders(b: Bulk, current: seq<nat>, i: nat)
    requires Listed(b, current) && OwnEach(b, current, i)
    ensures forall x, y :: i <= x < y < |b.hooks| ==> b.builders[x] != b.builders[y]
    ensures i < |b.hooks| ==> b.builders[i] !in b.builders[i + 1..]
  {
    forall x, y | i <= x < y < |b.hooks|
      ensures b.builders[x] != b.builders[y]
    {
      assert current[b.builders[x]] != current[b.builders[y]];
    }
  }

  /** Completing position i after the positions after it. */
  lemma OwnCompleted(b: Bulk, i: nat, m: nat, w: World, w1: World, w2: World)
    requires i + 1 < |b.hooks| && Fits(b, w) && m < |w.store| && w1 == Specified(b, w, i, m)
    requires Apart(b, w.current, i, m)
    requires forall x, y :: i <= x < y < |b.hooks| ==> b.builders[x] != b.builders[y]
    requires Fits(b, w2) && |w.store| <= |w2.store| && w2.current[b.builders[i]] == m
    requires OwnMet(b, w1, w2, i + 1, w1.current[b.builders[i + 1]])
    ensures OwnMet(b, w, Completed(w2, i, m), i, m)
  {
    forall k | i < k < |b.hooks|
      ensures var c := w2.current[b.builders[k]]; c != m && (c == w.current[b.builders[k]] || c >= |w.store|)
    {
      assert w1.current[b.builders[k]] == w.current[b.builders[k]];
      assert k == i + 1 || i + 1 < k;
    }
  }

  /** If every builder starts with a mutation of its own, then after a successful save under transparent hooks the
      mutation each builder holds, the one it came with or the replacement its hooks passed on, exposes the builder's
      own node, and so its id. */
  lemma EveryMutationExposesItsNode(b: Bulk, w: World)
    requires |b.hooks| > 0 && Fits(b, w) && AllTransparent(b)
    requires forall x, y :: 0 <= x < y < |b.hooks| ==> w.current[b.builders[x]] != w.current[b.builders[y]]
    ensures var (w', out) := Exec(b, MutatorOf(b, 0), Mine(b, w, 0), w);
            out.Done? ==> forall k :: 0 <= k < |b.hooks| ==>
              var c := w'.current[b.builders[k]];
              && w'.store[c].done && w'.store[c].node == Some(k)
              && (c == w.current[b.builders[k]] || c >= |w.store|)
  {
    OwnRun(b, 0, 0, Mine(b, w, 0), w);
  }

  // ---------- which error ----------

  /** The steps of a run: those since w. */
  ghost predicate Continues(w: World, w': World) {
    |w.trace| <= |w'.trace| && w'.trace[..|w.trace|] == w.trace
  }

  /** The positions whose checks were passed since w. */
  ghost predicate PassedChecks(w: World, w': World, from: nat, to: nat) {
    Continues(w, w') && forall l: nat :: Checked(l) in w'.trace[|w.trace|..] <==> from <= l < to
  }

  /** The error of a run from position i: a check's, at a position k whose builder's mutation it rejects, when all
      positions before k have passed theirs and nothing was issued; or the database's. */
  ghost predicate Reports(b: Bulk, i: nat, w: World, w': World, out: Outcome)
    requires Fits(b, w) && Fits(b, w')
  {
    match out
    case Done => true
    case Failed(Invalid(k, c)) =>
      && i <= k < |b.hooks| && PassedChecks(w, w', i, k) && w'.batches == w.batches
      && b.check(w'.store[w'.current[b.builders[k]]].fields) == Some(c)
    case Failed(BatchFailed) =>
      && PassedChecks(w, w', i, |b.hooks|) && |w'.batches| == |w.batches| + 1
      && w'.batches[..|w.batches|] == w.batches && !w'.batches[|w.batches|].ok
    case Failed(HookError(_)) => false
  }

  lemma {:induction false} FailureRun(b: Bulk, i: nat, j: nat, m: nat, w: World)
    requires Position(b, i, j) && Fits(b, w) && m < |w.store| && AllPassThrough(b)
    ensures var (w', out) := Exec(b, At(b, i, j), m, w);
            Reports(b, i, w, w', out)
    decreases |b.hooks| - i, |b.hooks[i]| - j, 1
  {
    if j == |b.hooks[i]| {
      if b.check(w.store[Mine(b, w, i)].fields).None? {
        FailureCore(b, i, m, w);
      }
    } else {
      var h := b.hooks[i][j];
      assert PassesThrough(h);
      var w1 := Edited(Log(w, Entered(i, j)), m, h.edit);
      FailureRun(b, i, j + 1, m, w1);
      var p := Exec(b, At(b, i, j + 1), m, w1);
      assert Exec(b, At(b, i, j), m, w) == (Log(p.0, Left(i, j)), p.1);
      ReportsOutside(b, i, w, w1, p.0, p.1, Entered(i, j), Left(i, j));
    }
  }

  lemma {:induction false} FailureCore(b: Bulk, i: nat, m: nat, w: World)
    requires i < |b.hooks| && Fits(b, w) && m < |w.store| && AllPassThrough(b)
    requires b.check(w.store[Mine(b, w, i)].fields).None?
    ensures var (w', out) := Exec(b, Core(i), m, w);
            Reports(b, i, w, w', out)
    decreases |b.hooks| - i, 0, 0
  {
    var w1 := Specified(b, w, i, m);
    if i + 1 < |b.hooks| {
      var next := Mine(b, w1, i + 1);
      FailureRun(b, i + 1, 0, next, w1);
      var p := Exec(b, MutatorOf(b, i + 1), next, w1);
      assert Exec(b, Core(i), m, w) == Unwound(p, i, m);
      if p.1.Failed? {
        ReportsAfter(b, i, w, w1, p.0, p.1);
      }
    } else {
      assert Exec(b, Core(i), m, w) == Unwound(Insert(b, w1), i, m);
      FailureLast(b, i, m, w, w1);
    }
  }

  lemma FailureLast(b: Bulk, i: nat, m: nat, w: World, w1: World)
    requires i + 1 == |b.hooks| && Fits(b, w) && m < |w.store| && w1 == Specified(b, w, i, m)
    ensures var (w', out) := Unwound(Insert(b, w1), i, m);
            Reports(b, i, w, w', out)
  {
    var w' := Insert(b, w1).0;
    assert w'.trace[|w.trace|..] == [Checked(i), Inserted];
    assert w'.trace[..|w.trace|] == w.trace;
  }

  /** A step before a run and one after it, neither of them a check. */
  lemma ReportsOutside(b: Bulk, i: nat, w: World, w1: World, w2: World, out: Outcome, e: Event, f: Event)
    requires Fits(b, w) && Fits(b, w1) && Fits(b, w2) && Reports(b, i, w1, w2, out)
    requires !e.Checked? && !f.Checked? && w1.trace == w.trace + [e] && w1.batches == w.batches
    ensures Reports(b, i, w, Log(w2, f), out)
  {
    if out.Failed? {
      var n, t := |w.trace|, w2.trace;
      assert t[..n + 1] == w.trace + [e] && t[..n] == t[..n + 1][..n];
      assert (t + [f])[n..] == [e] + t[n + 1..] + [f];
      assert (t + [f])[..n] == w.trace;
    }
  }

  /** A passed check before a run. */
  lemma ReportsAfter(b: Bulk, i: nat, w: World, w1: World, w2: World, out: Outcome)
    requires Fits(b, w) && Fits(b, w1) && Fits(b, w2) && i < |b.hooks| && out.Failed? && Reports(b, i + 1, w1, w2, out)
    requires w1.trace == w.trace + [Checked(i)] && w1.batches == w.batches
    ensures Reports(b, i, w, w2, out)
  {
    var n, t := |w.trace|, w2.trace;
    assert t[..n + 1] == w.trace + [Checked(i)] && t[..n] == t[..n + 1][..n];
    assert t[n..] == [Checked(i)] + t[n + 1..];
  }

  /** Under pass-through hooks the error of a save names the first position whose check fails, with what its check
      says, or is the database's after all checks have passed. */
  lemma FirstFailureReported(b: Bulk, w: World)
    requires |b.hooks| > 0 && Fits(b, w) && AllPassThrough(b)
    ensures var (w', out) := Exec(b, MutatorOf(b, 0), Mine(b, w, 0), w);
            match out
            case Done => true
            case Failed(Invalid(k, c)) =>
              && k < |b.hooks| && b.check(w'.store[w'.current[b.builders[k]]].fields) == Some(c)
              && |w.trace| <= |w'.trace| && (forall l: nat :: Checked(l) in w'.trace[|w.trace|..] <==> 0 <= l < k)
              && w'.batches == w.batches
            case Failed(BatchFailed) => |w'.batches| == |w.batches| + 1 && !w'.batches[|w.batches|].ok
            case Failed(HookError(_)) => false
  {
    FailureRun(b, 0, 0, Mine(b, w, 0), w);
  }

  // ---------- what is sent ----------

  ghost predicate AllPass(hooks: seq<Hook>) {
    forall j :: 0 <= j < |hooks| ==> PassesThrough(hooks[j])
  }

  /** The fields after the edits of some hooks, one after the other. */
  ghost function EditedBy(hooks: seq<Hook>, f: Fields): Fields
    requires AllPass(hooks)
  {
    if hooks == [] then f else
      var h := hooks[|hooks| - 1];
      h.edit(EditedBy(hooks[..|hooks| - 1], f))
  }

  lemma {:induction false} ThroughEdits(hooks: seq<Hook>, rest: seq<Hook>, f: Fields)
    requires AllPass(hooks)
    ensures Through(hooks + rest, f, f, true) == Through(rest, EditedBy(hooks, f), EditedBy(hooks, f), true)
    decreases |hooks|
  {
    if hooks == [] {
      assert hooks + rest == rest;
    } else {
      var n := |hooks| - 1;
      var h := hooks[n];
      var g := EditedBy(hooks[..n], f);
      ThroughEdits(hooks[..n], [h] + rest, f);
      assert hooks[..n] + ([h] + rest) == hooks + rest;
      assert ([h] + rest)[1..] == rest && PassesThrough(h);
      assert Through([h] + rest, g, g, true) == Through(rest, h.edit(g), h.edit(g), true);
    }
  }

  /** A builder whose hooks only edit sends its fields after all their edits, in hook order, if these pass the check. */
  lemma SendsEdited(b: Bulk, k: nat, f: Fields)
    requires k < |b.hooks| && AllPass(b.hooks[k])
    ensures var g := EditedBy(b.hooks[k], f);
            Sends(b, k, f) == if b.check(g).None? then Some(g) else None
  {
    ThroughEdits(b.hooks[k], [], f);
    assert b.hooks[k] + [] == b.hooks[k];
  }

  /** A last hook decides on the fields after its own edit. If it stops, nothing is sent; if it forwards, what it sees
      is checked and sent; if it replaces, what it sees is checked and the replacement is sent. */
  lemma SendsDecided(b: Bulk, k: nat, f: Fields, edits: seq<Hook>, h: Hook)
    requires k < |b.hooks| && b.hooks[k] == edits + [h] && AllPass(edits) && h.Hook?
    ensures var g := h.edit(EditedBy(edits, f));
            Sends(b, k, f) ==
            match h.decide(g)
            case Stop(_) => None
            case Forward => if b.check(g).None? then Some(g) else None
            case Replace(other) => if b.check(g).None? then Some(other) else None
  {
    ThroughEdits(edits, [h], f);
    assert [h][1..] == [];
  }

  // ---------- retries ----------

  /** A hook that retries r times, around a builder that passes its check and a database that refuses everything, issues
      r + 1 batches, all refused, and reports the database's error. */
  lemma {:induction false} EveryRetryIssues(b: Bulk, m: nat, w: World, r: nat)
    requires |b.hooks| == 1 && Fits(b, w) && m < |w.store|
    requires b.check(w.store[Mine(b, w, 0)].fields).None? && b.check(w.store[m].fields).None?
    requires forall n, specs :: b.db(n, specs).None?
    ensures var (w', out) := Attempts(b, Core(0), m, w, r);
            out == Failed(BatchFailed) && |w'.batches| == |w.batches| + r + 1
    decreases r
  {
    var w1 := Specified(b, w, 0, m);
    var p := Exec(b, Core(0), m, w);
    assert p == Unwound(Insert(b, w1), 0, m);
    if r > 0 {
      assert Mine(b, p.0, 0) == m;
      EveryRetryIssues(b, m, p.0, r - 1);
    }
  }
}
