/** When a bulk save is all-or-nothing, and the order in which it does things. */
module BulkOutcome {
  import opened Wrappers
  import opened AccountColumns
  import opened AccountMutations
  import opened BulkCreate
  import opened BulkTheorems
  import opened BulkCourse

  /** The builders from a position on hold mutations that are done. */
  ghost predicate AllDone(b: Bulk, w: World, from: nat)
    requires Fits(b, w)
  {
    forall k :: from <= k < |b.hooks| ==> w.store[w.current[b.builders[k]]].done
  }

  ghost predicate NoneDone(w: World) {
    forall x :: 0 <= x < |w.store| ==> !w.store[x].done
  }

  /** What is done stays done; nothing else is. */
  ghost predicate SameDone(w: World, w': World) {
    && |w.store| <= |w'.store|
    && forall x :: 0 <= x < |w'.store| ==> (w'.store[x].done <==> x < |w.store| && w.store[x].done)
  }

  ghost predicate DoneKept(w: World, w': World) {
    |w.store| <= |w'.store| && forall x :: 0 <= x < |w.store| && w.store[x].done ==> w'.store[x].done
  }

  /** Exactly one new batch, accepted and full. */
  ghost predicate OneBatch(b: Bulk, w: World, w': World) {
    && |w'.batches| == |w.batches| + 1 && w'.batches[..|w.batches|] == w.batches
    && var q := w'.batches[|w.batches|];
       q.ok && |q.specs| == |b.hooks| && None !in q.specs
  }

  /** No new batch that the database took. */
  ghost predicate NoneAccepted(w: World, w': World) {
    && |w.batches| <= |w'.batches| && w'.batches[..|w.batches|] == w.batches
    && forall k :: |w.batches| <= k < |w'.batches| ==> !w'.batches[k].ok
  }

  /** Either one accepted batch with every spec, and every builder's mutation done; or an error, nothing accepted and no
      mutation done. */
  ghost predicate AllOrNothing(b: Bulk, w: World, w': World, out: Outcome)
    requires Fits(b, w')
  {
    if out.Done? then OneBatch(b, w, w') && AllDone(b, w', 0) else NoneAccepted(w, w') && NoneDone(w')
  }

  /** Builders that are not listed from position i on keep their mutations. */
  ghost predicate OthersKept(b: Bulk, w: World, w': World, i: nat)
    requires i <= |b.builders|
  {
    && |w'.current| == |w.current|
    && forall x :: 0 <= x < |w.current| && x !in b.builders[i..] ==> w'.current[x] == w.current[x]
  }

  /** Once position i has completed mutation m, and the later positions theirs, all are done. */
  lemma AllDoneFrom(b: Bulk, w: World, i: nat, m: nat)
    requires i < |b.hooks| && Fits(b, w) && m < |w.store| && w.store[m].done && AllDone(b, w, i + 1)
    requires b.builders[i] !in b.builders[i + 1..] ==> Mine(b, w, i) == m
    ensures AllDone(b, w, i)
  {
    if b.builders[i] in b.builders[i + 1..] {
      var l :| 0 <= l < |b.builders[i + 1..]| && b.builders[i + 1..][l] == b.builders[i];
      assert Mine(b, w, i) == Mine(b, w, i + 1 + l);
    }
    forall k | i <= k < |b.hooks|
      ensures w.store[w.current[b.builders[k]]].done
    {
      assert k == i || i + 1 <= k;
    }
  }

  lemma OthersKeptStep(b: Bulk, w: World, w2: World, i: nat, m: nat)
    requires i < |b.hooks| && Fits(b, w) && Fits(b, w2) && m < |w.store|
    requires OthersKept(b, Specified(b, w, i, m), w2, i + 1)
    ensures OthersKept(b, w, w2, i)
    ensures b.builders[i] !in b.builders[i + 1..] ==> Mine(b, w2, i) == m
  {
    assert b.builders[i..] == [b.builders[i]] + b.builders[i + 1..];
  }

  // ---------- transparent hooks ----------

  /** A hook that calls on at most once, never succeeds on its own, and reports exactly the outcome it gets. It may
      edit the mutation, replace it, or refuse it. */
  ghost predicate Transparent(h: Hook) {
    && CallsOnce(h)
    && (forall f :: h.decide(f).Stop? ==> h.decide(f).out.Failed?)
    && h.after(Done).Done? && (forall e :: h.after(Failed(e)).Failed?)
  }

  ghost predicate AllTransparent(b: Bulk) {
    forall i, j :: 0 <= i < |b.hooks| && 0 <= j < |b.hooks[i]| ==> Transparent(b.hooks[i][j])
  }

  /** The nodes from a builder on carry the fields and the ids of their specs. */
  ghost predicate Created(w: World, from: nat) {
    |w.nodes| == |w.specs| &&
    forall k :: from <= k < |w.nodes| ==>
      w.specs[k].Some? && w.nodes[k] == Some(Node(w.specs[k].value.fields, IDOr0(w.specs[k].value.id)))
  }

  function IDOr0(id: Option<int>): int {
    if id.Some? then id.value else 0
  }

  /** The id that the database's answer gives position k. */
  function AnsweredID(ids: seq<Option<int>>, k: nat): Option<int> {
    if k < |ids| then ids[k] else None
  }

  /** The specs are those of the new batch, with the ids of the database's answer to it. */
  ghost predicate SpecsAnswered(b: Bulk, w: World, w': World)
    requires OneBatch(b, w, w')
  {
    var sent := w'.batches[|w.batches|].specs;
    && b.db(|w.batches|, sent).Some? && |w'.specs| == |sent|
    && forall k :: 0 <= k < |sent| ==>
         w'.specs[k] == Some(Spec(sent[k].value.fields, AnsweredID(b.db(|w.batches|, sent).value, k)))
  }

  /** The nodes are made of the new batch and the database's answer to it: each carries the fields of the spec at its
      position, and the id answered for it, or 0 if there is none. */
  ghost predicate NodesAnswered(b: Bulk, w: World, w': World)
    requires OneBatch(b, w, w')
  {
    var sent := w'.batches[|w.batches|].specs;
    && b.db(|w.batches|, sent).Some? && |w'.nodes| == |sent|
    && var ids := b.db(|w.batches|, sent).value;
       forall k :: 0 <= k < |sent| ==>
         && w'.nodes[k].Some? && w'.nodes[k].value.fields == sent[k].value.fields
         && w'.nodes[k].value.id == if k < |ids| && ids[k].Some? then ids[k].value else 0
  }

  /** The nodes of earlier builders, and the fields of their specs, are left alone. */
  ghost predicate EarlierKept(w: World, w': World, i: nat) {
    && |w'.nodes| == |w.nodes| == |w.specs| == |w'.specs|
    && forall k :: 0 <= k < i && k < |w.nodes| ==>
         && w'.nodes[k] == w.nodes[k]
         && (w.specs[k].Some? ==> w'.specs[k].Some? && w'.specs[k].value.fields == w.specs[k].value.fields)
  }

  /** What a transparent run from builder i leaves behind. */
  ghost predicate RunMet(b: Bulk, i: nat, w: World, w': World, out: Outcome)
    requires Fits(b, w) && Fits(b, w') && i <= |b.hooks|
  {
    && SpecsKept(w, w')
    && OthersKept(b, w, w', i)
    && EarlierKept(w, w', i)
    && (out.Done? ==> OneBatch(b, w, w') && AllDone(b, w', i) && DoneKept(w, w') && Created(w', i))
    && (out.Done? ==> SpecsAnswered(b, w, w'))
    && (out.Failed? ==> NoneAccepted(w, w') && SameDone(w, w'))
  }

  lemma {:induction false} TransparentRun(b: Bulk, i: nat, j: nat, m: nat, w: World)
    requires Position(b, i, j) && Fits(b, w) && m < |w.store|
    requires AllTransparent(b) && FilledBelow(w, i)
    ensures var (w', out) := Exec(b, At(b, i, j), m, w);
            RunMet(b, i, w, w', out)
    decreases |b.hooks| - i, |b.hooks[i]| - j, 1
  {
    if j == |b.hooks[i]| {
      TransparentCore(b, i, m, w);
    } else {
      var h := b.hooks[i][j];
      assert Transparent(h);
      var w1 := Edited(Log(w, Entered(i, j)), m, h.edit);
      match h.decide(w1.store[m].fields) {
        case Stop(out) =>
        case Forward => TransparentCall(b, i, j, w, w1, m);
        case Replace(f) =>
          TransparentCall(b, i, j, w, w1.(store := w1.store + [Mutation(f, false, None)]), |w1.store|);
      }
    }
  }

  /** A transparent hook calls on, with its own mutation or another one. */
  lemma {:induction false} TransparentCall(b: Bulk, i: nat, j: nat, w: World, w1: World, m1: nat)
    requires Position(b, i, j + 1) && Fits(b, w) && Fits(b, w1) && m1 < |w1.store|
    requires AllTransparent(b) && FilledBelow(w, i)
    requires w1.current == w.current && w1.nodes == w.nodes && w1.specs == w.specs && w1.batches == w.batches &&
             SameDone(w, w1)
    ensures var (w2, out) := Exec(b, At(b, i, j + 1), m1, w1);
            RunMet(b, i, w, Log(w2, Left(i, j)), b.hooks[i][j].after(out))
    decreases |b.hooks| - i, |b.hooks[i]| - j, 0
  {
    TransparentRun(b, i, j + 1, m1, w1);
    var p := Exec(b, At(b, i, j + 1), m1, w1);
    assert Transparent(b.hooks[i][j]);
    TransparentStep(b, i, j, w, w1, p.0, p.1);
  }

  /** One transparent hook around a run: neither its edit nor its replacement is a completed mutation. */
  lemma TransparentStep(b: Bulk, i: nat, j: nat, w: World, w1: World, w2: World, out: Outcome)
    requires i < |b.hooks| && j < |b.hooks[i]| && Transparent(b.hooks[i][j])
    requires Fits(b, w) && Fits(b, w1) && Fits(b, w2)
    requires w1.current == w.current && w1.nodes == w.nodes && w1.specs == w.specs && w1.batches == w.batches &&
             SameDone(w, w1)
    requires RunMet(b, i, w1, w2, out)
    ensures RunMet(b, i, w, Log(w2, Left(i, j)), b.hooks[i][j].after(out))
  {
  }

  lemma {:induction false} TransparentCore(b: Bulk, i: nat, m: nat, w: World)
    requires i < |b.hooks| && Fits(b, w) && m < |w.store|
    requires AllTransparent(b) && FilledBelow(w, i)
    ensures var (w', out) := Exec(b, Core(i), m, w);
            RunMet(b, i, w, w', out)
    decreases |b.hooks| - i, 0, 0
  {
    if b.check(w.store[Mine(b, w, i)].fields).None? {
      var w1 := Specified(b, w, i, m);
      assert FilledBelow(w1, i + 1);
      if i + 1 < |b.hooks| {
        TransparentRun(b, i + 1, 0, Mine(b, w1, i + 1), w1);
        var p := Exec(b, MutatorOf(b, i + 1), Mine(b, w1, i + 1), w1);
        CompletedMet(b, i, m, w, w1, p.0, p.1);
      } else {
        assert None !in w1.specs;
        var p := Insert(b, w1);
        assert RunMet(b, i + 1, w1, p.0, p.1);
        CompletedMet(b, i, m, w, w1, p.0, p.1);
      }
    }
  }

  /** Completing builder i after the builders inside it. */
  lemma CompletedMet(b: Bulk, i: nat, m: nat, w: World, w1: World, w2: World, out: Outcome)
    requires i < |b.hooks| && Fits(b, w) && m < |w.store| && w1 == Specified(b, w, i, m)
    requires Fits(b, w2) && |w.store| <= |w2.store| && RunMet(b, i + 1, w1, w2, out)
    ensures var p := Unwound((w2, out), i, m);
            RunMet(b, i, w, p.0, p.1)
  {
    OthersKeptStep(b, w, w2, i, m);
    if out.Done? {
      var w' := Completed(w2, i, m);
      AllDoneFrom(b, w', i, m);
      CompletedCreated(w1, w2, i, m);
    }
  }

  lemma CompletedCreated(w1: World, w2: World, i: nat, m: nat)
    requires i < |w1.nodes| && m < |w2.store|
    requires EarlierKept(w1, w2, i + 1) && Created(w2, i + 1)
    requires w1.specs[i].Some? && w1.nodes[i] == Some(Node(w1.specs[i].value.fields, 0))
    ensures Created(Completed(w2, i, m), i)
  {
    var w' := Completed(w2, i, m);
    forall k | i <= k < |w'.nodes|
      ensures w'.specs[k].Some?
      ensures w'.nodes[k] == Some(Node(w'.specs[k].value.fields, IDOr0(w'.specs[k].value.id)))
    {
      if k != i {
        assert i + 1 <= k && w'.nodes[k] == w2.nodes[k];
      }
    }
  }

  /** With transparent hooks a bulk save is all-or-nothing, even when hooks edit or replace mutations; on success every
      node carries the fields its spec had in the batch, and the id the database answered for its position. */
  lemma TransparentIsAllOrNothing(b: Bulk, w: World)
    requires |b.hooks| > 0 && Fits(b, w) && AllTransparent(b) && NoneDone(w)
    ensures var (w', out) := Exec(b, MutatorOf(b, 0), Mine(b, w, 0), w);
            AllOrNothing(b, w, w', out) && (out.Done? ==> NodesAnswered(b, w, w'))
  {
    TransparentRun(b, 0, 0, Mine(b, w, 0), w);
  }

  /** The mutations of the builders at the first n positions. */
  ghost function Mutations(b: Bulk, current: seq<nat>, n: nat): seq<nat>
    requires n <= |b.builders| && forall k :: 0 <= k < |b.builders| ==> b.builders[k] < |current|
  {
    if n == 0 then [] else Mutations(b, current, n - 1) + [current[b.builders[n - 1]]]
  }

  /** The store a save starts with: the mutation of every builder listed has its defaults, even if it is listed twice,
      and nothing else has changed. */
  lemma {:induction false} StartsDefaulted(b: Bulk, store: seq<Mutation>, current: seq<nat>, n: nat, rt: Runtime)
    requires n <= |b.builders| && forall k :: 0 <= k < |b.builders| ==> b.builders[k] < |current|
    requires forall x :: 0 <= x < |current| ==> current[x] < |store|
    ensures var s, ms := Defaulted(b, store, current, n, rt), Mutations(b, current, n);
            && (forall x :: 0 <= x < |store| && x in ms ==>
                s[x] == store[x].(fields := Defaults(store[x].fields, rt).0))
            && (forall x :: 0 <= x < |store| && x !in ms ==> s[x] == store[x])
  {
    if n > 0 {
      StartsDefaulted(b, store, current, n - 1, rt);
      var m, s := current[b.builders[n - 1]], Defaulted(b, store, current, n - 1, rt);
      FillTwice(store[m].fields, DefaultTable(rt));
      assert Defaulted(b, store, current, n, rt) == s[m := s[m].(fields := Defaults(s[m].fields, rt).0)];
      assert Mutations(b, current, n) == Mutations(b, current, n - 1) + [m];
    }
  }

  /** A whole save under transparent hooks, on mutations none of which is done: either the accounts are returned, one
      full batch was taken by the database, every builder's mutation is done, and every account carries the fields of
      its spec in the batch and the id the database answered for it; or an error is returned, nothing was taken, and no
      mutation is done. */
  method SaveAllOrNothing(save: AccountCreateBulk) returns (r: Saved)
    requires AllTransparent(save.bulk) && Proper(save.bulk) && NoneDone(save.State())
    requires forall k :: 0 <= k < |save.bulk.builders| ==> save.bulk.builders[k] < |save.current|
    requires forall x :: 0 <= x < |save.current| ==> save.current[x] < |save.store|
    modifies save
    ensures save.err.Some? || |save.bulk.hooks| == 0 ==> save.batches == old(save.batches) && NoneDone(save.State())
    ensures save.err.Some? ==> r == NotSaved(save.err.value)
    ensures save.err.None? && |save.bulk.hooks| == 0 ==> r == Saved([])
    ensures save.err.None? && |save.bulk.hooks| > 0 ==>
              && Fits(save.bulk, save.State())
              && match r
                 case Panicked => false
                 case NotSaved(_) => NoneAccepted(old(save.State()), save.State()) && NoneDone(save.State())
                 case Saved(nodes) =>
                   && OneBatch(save.bulk, old(save.State()), save.State()) && AllDone(save.bulk, save.State(), 0)
                   && nodes == save.nodes && NodesAnswered(save.bulk, old(save.State()), save.State())
  {
    ghost var b, w0 := save.bulk, save.State();
    assert NoNil(b) by {
      assert forall i, j :: 0 <= i < |b.hooks| && 0 <= j < |b.hooks[i]| ==> Transparent(b.hooks[i][j]);
    }
    StartsDefaulted(b, save.store, save.current, |b.builders|, save.runtime);
    ghost var w := Started(b, w0, save.runtime);
    assert NoneDone(w);
    if |b.hooks| > 0 {
      TransparentIsAllOrNothing(b, w);
    }
    r := save.Save();
  }

  // ---------- exactly when it is all-or-nothing ----------

  /** A hook that calls on at most once and hands errors on. It may edit the mutation, replace it, refuse it, succeed
      on its own, or fail after success. */
  ghost predicate Propagating(h: Hook) {
    CallsOnce(h) && forall e :: h.after(Failed(e)).Failed?
  }

  ghost predicate AllPropagating(b: Bulk) {
    forall i, j :: 0 <= i < |b.hooks| && 0 <= j < |b.hooks[i]| ==> Propagating(b.hooks[i][j])
  }

  predicate FailsAfter(h: Hook) {
    h.Hook? && h.after(Done).Failed?
  }

  ghost predicate AnyFails(hs: seq<Hook>, lo: nat, hi: nat) {
    exists l :: lo <= l < hi && l < |hs| && FailsAfter(hs[l])
  }

  /** No hook from position (i, j) inwards fails after success. */
  ghost predicate NoneFails(b: Bulk, i: nat, j: nat) {
    && (i < |b.hooks| ==> !AnyFails(b.hooks[i], j, |b.hooks[i]|))
    && forall k :: i < k < |b.hooks| ==> !AnyFails(b.hooks[k], 0, |b.hooks[k]|)
  }

  ghost predicate SomeDone(w: World) {
    exists x :: 0 <= x < |w.store| && w.store[x].done
  }

  /** How a run from position (i, j) ends, by its course. */
  ghost predicate CourseMet(b: Bulk, i: nat, j: nat, c: Course, w: World, w': World, out: Outcome)
    requires Fits(b, w) && Fits(b, w') && i <= |b.hooks|
  {
    && DoneKept(w, w') && OthersKept(b, w, w', i)
    && match c
       case Refused => out.Failed? && SameDone(w, w')
       case Answered(p, q) =>
         && i <= p < |b.hooks|
         && if p == i then j <= q && SameDone(w, w') && (out.Done? <==> !AnyFails(b.hooks[i], j, q))
            else if AnyFails(b.hooks[p], 0, q) then out.Failed? && SameDone(w, w')
            else SomeDone(w')
       case Reached(_) =>
         if Accepted(b, |w.batches|, c) then
           SomeDone(w') && (out.Done? <==> NoneFails(b, i, j)) && (out.Done? ==> AllDone(b, w', i))
         else out.Failed? && SameDone(w, w')
  }

  lemma {:induction false} CourseRun(b: Bulk, current: seq<nat>, store: seq<Fields>, i: nat, j: nat, m: nat,
                                     sent: seq<Fields>, w: World)
    requires Position(b, i, j) && Tracks(b, w, current, store, i, sent) && m < |store| && AllPropagating(b)
    ensures var (w', out) := Exec(b, At(b, i, j), m, w);
            CourseMet(b, i, j, CourseOf(b, current, store, i, j, m, sent), w, w', out)
    decreases |b.hooks| - i, |b.hooks[i]| - j, 2
  {
    if j == |b.hooks[i]| {
      CourseCore(b, current, store, i, m, sent, w);
    } else {
      CourseHook(b, current, store, i, j, m, sent, w);
    }
  }

  lemma {:induction false} CourseHook(b: Bulk, current: seq<nat>, store: seq<Fields>, i: nat, j: nat, m: nat,
                                      sent: seq<Fields>, w: World)
    requires Position(b, i, j + 1) && Tracks(b, w, current, store, i, sent) && m < |store| && AllPropagating(b)
    ensures var (w', out) := Exec(b, At(b, i, j), m, w);
            CourseMet(b, i, j, CourseOf(b, current, store, i, j, m, sent), w, w', out)
    decreases |b.hooks| - i, |b.hooks[i]| - j, 1
  {
    var h := b.hooks[i][j];
    assert Propagating(h);
    HookRun(b, i, j, m, w);
    var w1 := Edited(Log(w, Entered(i, j)), m, h.edit);
    var s := store[m := h.edit(store[m])];
    match h.decide(s[m]) {
      case Stop(out) => CourseStop(b, i, j, m, w, out);
      case Forward => CourseCall(b, current, s, i, j, m, sent, w, w1);
      case Replace(f) =>
        CourseCall(b, current, s + [f], i, j, |s|, sent, w, w1.(store := w1.store + [Mutation(f, false, None)]));
    }
  }

  /** A hook returns on its own. */
  lemma CourseStop(b: Bulk, i: nat, j: nat, m: nat, w: World, out: Outcome)
    requires Position(b, i, j + 1) && Fits(b, w) && m < |w.store| && b.hooks[i][j].Hook?
    ensures var w' := Log(Edited(Log(w, Entered(i, j)), m, b.hooks[i][j].edit), Left(i, j));
            CourseMet(b, i, j, if out.Failed? then Refused else Answered(i, j), w, w', out)
  {
  }

  /** A hook calls on, with its own mutation or another one. */
  lemma {:induction false} CourseCall(b: Bulk, current: seq<nat>, store: seq<Fields>, i: nat, j: nat, m: nat,
                                      sent: seq<Fields>, w: World, w1: World)
    requires Position(b, i, j + 1) && Tracks(b, w1, current, store, i, sent) && m < |store| && AllPropagating(b)
    requires Fits(b, w) && w1.current == w.current && w1.batches == w.batches && SameDone(w, w1)
    ensures var (w2, out) := Exec(b, At(b, i, j + 1), m, w1);
            CourseMet(b, i, j, CourseOf(b, current, store, i, j + 1, m, sent), w, Log(w2, Left(i, j)),
                      b.hooks[i][j].after(out))
    decreases |b.hooks| - i, |b.hooks[i]| - j, 0
  {
    CourseRun(b, current, store, i, j + 1, m, sent, w1);
    var p := Exec(b, At(b, i, j + 1), m, w1);
    assert Propagating(b.hooks[i][j]);
    CourseStep(b, i, j, w, w1, p.0, p.1, CourseOf(b, current, store, i, j + 1, m, sent));
  }

  /** One hook around a run. */
  lemma CourseStep(b: Bulk, i: nat, j: nat, w: World, w1: World, w2: World, out: Outcome, c: Course)
    requires Position(b, i, j + 1) && Propagating(b.hooks[i][j])
    requires Fits(b, w) && Fits(b, w1) && Fits(b, w2)
    requires w1.current == w.current && w1.batches == w.batches && SameDone(w, w1)
    requires CourseMet(b, i, j + 1, c, w1, w2, out)
    ensures CourseMet(b, i, j, c, w, Log(w2, Left(i, j)), b.hooks[i][j].after(out))
  {
    var w' := Log(w2, Left(i, j));
    assert SameDone(w1, w2) ==> SameDone(w, w');
    assert SomeDone(w2) ==> SomeDone(w') by {
      if x :| 0 <= x < |w2.store| && w2.store[x].done {
        assert w'.store[x].done;
      }
    }
    AnyFailsStep(b.hooks[i], j, |b.hooks[i]|);
    if c.Answered? && c.builder == i {
      AnyFailsStep(b.hooks[i], j, c.hook);
    }
  }

  lemma AnyFailsStep(hs: seq<Hook>, lo: nat, hi: nat)
    requires lo < hi && lo < |hs|
    ensures AnyFails(hs, lo, hi) <==> FailsAfter(hs[lo]) || AnyFails(hs, lo + 1, hi)
  {
    if AnyFails(hs, lo, hi) {
      var l :| lo <= l < hi && l < |hs| && FailsAfter(hs[l]);
      assert l == lo || lo + 1 <= l;
    }
  }

  lemma {:induction false} CourseCore(b: Bulk, current: seq<nat>, store: seq<Fields>, i: nat, m: nat,
                                      sent: seq<Fields>, w: World)
    requires i < |b.hooks| && Tracks(b, w, current, store, i, sent) && m < |store| && AllPropagating(b)
    ensures var (w', out) := Exec(b, Core(i), m, w);
            CourseMet(b, i, |b.hooks[i]|, CourseOf(b, current, store, i, |b.hooks[i]|, m, sent), w, w', out)
    decreases |b.hooks| - i, 0, 0
  {
    var n := |b.hooks[i]|;
    var c := CourseOf(b, current, store, i, n, m, sent);
    if b.check(store[current[b.builders[i]]]).None? {
      var w1 := Specified(b, w, i, m);
      var sent1 := sent + [store[m]];
      if i + 1 < |b.hooks| {
        CourseRun(b, w1.current, store, i + 1, 0, Mine(b, w1, i + 1), sent1, w1);
        var p := Exec(b, MutatorOf(b, i + 1), Mine(b, w1, i + 1), w1);
        assert Exec(b, Core(i), m, w) == Unwound(p, i, m);
        assert c == CourseOf(b, w1.current, store, i + 1, 0, Mine(b, w1, i + 1), sent1);
        CourseCompleted(b, i, m, w, p.0, p.1, c);
      } else {
        assert w1.specs == SpecsOf(sent1);
        assert Exec(b, Core(i), m, w) == Unwound(Insert(b, w1), i, m) && c == Reached(sent1);
        CourseLast(b, i, m, w, c);
      }
    }
  }

  /** The last builder's core, once its check has passed. */
  lemma CourseLast(b: Bulk, i: nat, m: nat, w: World, c: Course)
    requires i + 1 == |b.hooks| && Fits(b, w) && m < |w.store|
    requires c.Reached? && Specified(b, w, i, m).specs == SpecsOf(c.sent)
    ensures var (w', out) := Unwound(Insert(b, Specified(b, w, i, m)), i, m);
            CourseMet(b, i, |b.hooks[i]|, c, w, w', out)
  {
    assert !AnyFails(b.hooks[i], |b.hooks[i]|, |b.hooks[i]|);
    var p := Insert(b, Specified(b, w, i, m));
    if p.1.Done? {
      assert Completed(p.0, i, m).store[m].done;
    }
  }

  /** Completing builder i after the builders inside it. */
  lemma CourseCompleted(b: Bulk, i: nat, m: nat, w: World, w2: World, out: Outcome, c: Course)
    requires i + 1 < |b.hooks| && Fits(b, w) && m < |w.store| && Fits(b, w2) && |w.store| <= |w2.store|
    requires CourseMet(b, i + 1, 0, c, Specified(b, w, i, m), w2, out)
    ensures var p := Unwound((w2, out), i, m);
            CourseMet(b, i, |b.hooks[i]|, c, w, p.0, p.1)
  {
    assert !AnyFails(b.hooks[i], |b.hooks[i]|, |b.hooks[i]|);
    NoneFailsNext(b, i);
    OthersKeptStep(b, w, w2, i, m);
    if out.Done? {
      var w' := Completed(w2, i, m);
      assert w'.store[m].done;
      if Accepted(b, |w.batches|, c) {
        AllDoneFrom(b, w', i, m);
      }
    }
  }

  lemma NoneFailsNext(b: Bulk, i: nat)
    requires i + 1 < |b.hooks|
    ensures NoneFails(b, i, |b.hooks[i]|) <==> NoneFails(b, i + 1, 0)
  {
    assert !AnyFails(b.hooks[i], |b.hooks[i]|, |b.hooks[i]|);
    if NoneFails(b, i + 1, 0) {
      forall k | i < k < |b.hooks|
        ensures !AnyFails(b.hooks[k], 0, |b.hooks[k]|)
      {
        assert k == i + 1 || i + 1 < k;
      }
    }
  }

  /** For hooks that call on at most once and hand errors on, a bulk save is all-or-nothing exactly in these cases:
      something refuses, the database included; or the batch goes in and no hook fails after success; or a hook
      succeeds on its own and an outer hook of the same builder turns that into a failure. In every other case it
      either reports success without a batch, or an error with mutations done. */
  lemma AllOrNothingIff(b: Bulk, w: World)
    requires |b.hooks| > 0 && Fits(b, w) && AllPropagating(b) && NoneDone(w)
    ensures var (w', out) := Exec(b, MutatorOf(b, 0), Mine(b, w, 0), w);
            var c := SaveCourse(b, w);
            AllOrNothing(b, w, w', out) <==>
            match c
            case Refused => true
            case Answered(p, q) => p < |b.hooks| && AnyFails(b.hooks[p], 0, q)
            case Reached(_) => !Accepted(b, |w.batches|, c) || NoneFails(b, 0, 0)
  {
    CourseRun(b, w.current, FieldsOf(w.store), 0, 0, Mine(b, w, 0), [], w);
    assert AllHooks(b, CallsOnce) by {
      assert forall i, j :: 0 <= i < |b.hooks| && 0 <= j < |b.hooks[i]| ==> Propagating(b.hooks[i][j]);
    }
    IssuedBatch(b, w);
    var p := Exec(b, MutatorOf(b, 0), Mine(b, w, 0), w);
    CourseDecides(b, w, p.0, p.1, SaveCourse(b, w));
  }

  lemma CourseDecides(b: Bulk, w: World, w': World, out: Outcome, c: Course)
    requires |b.hooks| > 0 && Fits(b, w) && Fits(b, w') && NoneDone(w) && CourseMet(b, 0, 0, c, w, w', out)
    requires c.Reached? ==> |c.sent| == |b.hooks|
    requires w'.batches == w.batches + BatchesOf(b, |w.batches|, c)
    ensures AllOrNothing(b, w, w', out) <==>
            match c
            case Refused => true
            case Answered(p, q) => p < |b.hooks| && AnyFails(b.hooks[p], 0, q)
            case Reached(_) => !Accepted(b, |w.batches|, c) || NoneFails(b, 0, 0)
  {
  }

  /** A hook that succeeds without calling on. */
  function Answering(): Hook {
    Hook(f => f, _ => Stop(Done), 0, o => o)
  }

  /** A hook that calls on and fails after success. */
  function FailingLate(): Hook {
    Hook(f => f, _ => Forward, 0, (o: Outcome) => if o.Done? then Failed(HookError(1)) else o)
  }

  /** Calling on at most once and handing errors on is not enough. With a hook that answers by itself a save reports
      success though nothing was issued; with one that fails late it reports an error though the batch is in and the
      mutation is done. */
  lemma PropagatingIsNotEnough(check: Fields -> Option<Column>,
                               db: (nat, seq<Option<Spec>>) -> Option<seq<Option<int>>>, f: Fields)
    requires check(f).None? && db(0, [Some(Spec(f, None))]).Some?
    ensures Propagating(Answering()) && Propagating(FailingLate())
    ensures var w := World([Mutation(f, false, None)], [0], [None], [None], [], []);
            var b := Bulk([0], [[Answering()]], check, db);
            var (w', out) := Exec(b, MutatorOf(b, 0), 0, w);
            out.Done? && w'.batches == [] && !AllOrNothing(b, w, w', out)
    ensures var w := World([Mutation(f, false, None)], [0], [None], [None], [], []);
            var b := Bulk([0], [[FailingLate()]], check, db);
            var (w', out) := Exec(b, MutatorOf(b, 0), 0, w);
            out.Failed? && OneBatch(b, w, w') && w'.store[0].done && !AllOrNothing(b, w, w', out)
  {
    var w := World([Mutation(f, false, None)], [0], [None], [None], [], []);
    AnsweringRun(Bulk([0], [[Answering()]], check, db), w);
    FailingLateRun(Bulk([0], [[FailingLate()]], check, db), w, f);
  }

  lemma AnsweringRun(b: Bulk, w: World)
    requires b.hooks == [[Answering()]] && Fits(b, w) && w.batches == []
    ensures var (w', out) := Exec(b, MutatorOf(b, 0), Mine(b, w, 0), w);
            out.Done? && w'.batches == [] && !AllOrNothing(b, w, w', out)
  {
    assert MutatorOf(b, 0) == Wrapped(Answering(), 0, 0, WrapFrom(b.hooks[0], 0, 1));
  }

  lemma FailingLateRun(b: Bulk, w: World, f: Fields)
    requires b.builders == [0] && b.hooks == [[FailingLate()]] && b.check(f).None? &&
             b.db(0, [Some(Spec(f, None))]).Some?
    requires w == World([Mutation(f, false, None)], [0], [None], [None], [], [])
    ensures var (w', out) := Exec(b, MutatorOf(b, 0), 0, w);
            out.Failed? && OneBatch(b, w, w') && w'.store[0].done && !AllOrNothing(b, w, w', out)
  {
    var h := FailingLate();
    assert MutatorOf(b, 0) == Wrapped(h, 0, 0, WrapFrom(b.hooks[0], 0, 1)) && WrapFrom(b.hooks[0], 0, 1) == Core(0);
    var w1 := Edited(Log(w, Entered(0, 0)), 0, h.edit);
    assert w1.store == w.store;
    var w2 := Specified(b, w1, 0, 0);
    assert w2.specs == [Some(Spec(f, None))];
    var p := Unwound(Insert(b, w2), 0, 0);
    assert Exec(b, Core(0), 0, w1) == p;
    var w' := Log(p.0, Left(0, 0));
    assert Exec(b, MutatorOf(b, 0), 0, w) == (w', Failed(HookError(1)));
    assert w'.store[0].done;
  }

  // ---------- the order of a run ----------

  /** A hook that passes the mutation on, possibly edited, and hands back the outcome. */
  ghost predicate PassesThrough(h: Hook) {
    && h.Hook?
    && (forall f :: h.decide(f).Forward?)
    && (forall o :: h.after(o) == o)
    && h.retries == 0
  }

  ghost predicate AllPassThrough(b: Bulk) {
    forall i, j :: 0 <= i < |b.hooks| && 0 <= j < |b.hooks[i]| ==> PassesThrough(b.hooks[i][j])
  }

  function Entering(i: nat, j: nat, n: nat): seq<Event>
    requires j <= n
    decreases n - j
  {
    if j == n then [] else [Entered(i, j)] + Entering(i, j + 1, n)
  }

  /** The way down from builder i: hooks entered from the outside in, then the check, then the next builder. */
  function Descent(b: Bulk, i: nat): seq<Event>
    requires i <= |b.hooks|
    decreases |b.hooks| - i
  {
    if i == |b.hooks| then [] else Entering(i, 0, |b.hooks[i]|) + [Checked(i)] + Descent(b, i + 1)
  }

  lemma {:induction false} EnteringAt(i: nat, j: nat, n: nat)
    requires j <= n
    ensures |Entering(i, j, n)| == n - j && forall k :: 0 <= k < n - j ==> Entering(i, j, n)[k] == Entered(i, j + k)
    decreases n - j
  {
    if j < n {
      EnteringAt(i, j + 1, n);
    }
  }

  /** e is a step on the way down from builder i. */
  ghost predicate OnTheWay(b: Bulk, i: nat, e: Event) {
    || (e.Entered? && i <= e.builder < |b.hooks| && e.hook < |b.hooks[e.builder]|)
    || (e.Checked? && i <= e.builder < |b.hooks|)
  }

  /** Steps of an earlier builder come first; of one builder, the hooks in order and then the check. */
  ghost predicate Precedes(e: Event, f: Event) {
    && !e.Inserted? && !f.Inserted?
    && (e.builder < f.builder || (e.builder == f.builder && e.Entered? && (f.Entered? ==> e.hook < f.hook)))
  }

  /** The way down has every hook and every check of the builders from i on, each once, in order, and nothing else. */
  lemma {:induction false} DescentInOrder(b: Bulk, i: nat)
    requires i <= |b.hooks|
    ensures forall e :: e in Descent(b, i) <==> OnTheWay(b, i, e)
    ensures forall p, q :: 0 <= p < q < |Descent(b, i)| ==> Precedes(Descent(b, i)[p], Descent(b, i)[q])
    decreases |b.hooks| - i
  {
    if i < |b.hooks| {
      DescentInOrder(b, i + 1);
      EnteringAt(i, 0, |b.hooks[i]|);
      var hooks, rest := Entering(i, 0, |b.hooks[i]|), Descent(b, i + 1);
      forall e
        ensures e in hooks <==> e.Entered? && e.builder == i && e.hook < |b.hooks[i]|
      {
        if e.Entered? && e.builder == i && e.hook < |b.hooks[i]| {
          assert hooks[e.hook] == e;
        }
      }
      assert forall q :: 0 <= q < |rest| ==> rest[q] in rest;
    }
  }

  function Opposite(e: Event): Event {
    match e
    case Entered(i, j) => Left(i, j)
    case Left(i, j) => Entered(i, j)
    case Checked(i) => Finished(i)
    case Finished(i) => Checked(i)
    case Inserted => Inserted
  }

  /** The events in reverse order, each replaced by the one that closes it. */
  function Mirror(t: seq<Event>): seq<Event> {
    if t == [] then [] else Mirror(t[1..]) + [Opposite(t[0])]
  }

  lemma {:induction false} MirrorAt(t: seq<Event>, k: nat)
    requires k < |t|
    ensures |Mirror(t)| == |t| && Mirror(t)[k] == Opposite(t[|t| - 1 - k])
  {
    if |t| > 1 {
      MirrorAt(t[1..], if k < |t| - 1 then k else 0);
    }
  }

  /** A successful run of pass-through hooks is properly nested: all builders' hooks and checks in order, one batch,
      and then every step undone in exactly the opposite order. */
  lemma {:induction false} RunIsNested(b: Bulk, i: nat, j: nat, m: nat, w: World)
    requires Position(b, i, j) && Fits(b, w) && m < |w.store| && AllPassThrough(b)
    ensures var (w', out) := Exec(b, At(b, i, j), m, w);
            var down := Entering(i, j, |b.hooks[i]|) + [Checked(i)] + Descent(b, i + 1);
            out.Done? ==> w'.trace == w.trace + down + [Inserted] + Mirror(down)
    decreases |b.hooks| - i, |b.hooks[i]| - j, 1
  {
    var rest := [Checked(i)] + Descent(b, i + 1);
    var down := Entering(i, j, |b.hooks[i]|) + rest;
    assert down == Entering(i, j, |b.hooks[i]|) + [Checked(i)] + Descent(b, i + 1);
    if j == |b.hooks[i]| {
      CoreIsNested(b, i, m, w);
      assert down == rest;
    } else {
      var h := b.hooks[i][j];
      assert PassesThrough(h);
      var w1 := Edited(Log(w, Entered(i, j)), m, h.edit);
      RunIsNested(b, i, j + 1, m, w1);
      var inner := Entering(i, j + 1, |b.hooks[i]|) + [Checked(i)] + Descent(b, i + 1);
      assert down == [Entered(i, j)] + inner;
      NestOnce(w.trace, Entered(i, j), inner);
    }
  }

  /** One step outside a nested run. */
  lemma NestOnce(before: seq<Event>, e: Event, inner: seq<Event>)
    ensures before + [e] + inner + [Inserted] + Mirror(inner) + [Opposite(e)] ==
            before + ([e] + inner) + [Inserted] + Mirror([e] + inner)
  {
    assert ([e] + inner)[1..] == inner;
    assert before + [e] + inner == before + ([e] + inner);
  }

  lemma {:induction false} CoreIsNested(b: Bulk, i: nat, m: nat, w: World)
    requires i < |b.hooks| && Fits(b, w) && m < |w.store| && AllPassThrough(b)
    ensures var (w', out) := Exec(b, Core(i), m, w);
            var down := [Checked(i)] + Descent(b, i + 1);
            out.Done? ==> w'.trace == w.trace + down + [Inserted] + Mirror(down)
    decreases |b.hooks| - i, 0, 0
  {
    var down := [Checked(i)] + Descent(b, i + 1);
    NestOnce(w.trace, Checked(i), Descent(b, i + 1));
    if b.check(w.store[Mine(b, w, i)].fields).None? {
      var w1 := Specified(b, w, i, m);
      if i + 1 < |b.hooks| {
        RunIsNested(b, i + 1, 0, Mine(b, w1, i + 1), w1);
        assert Descent(b, i + 1) == Entering(i + 1, 0, |b.hooks[i + 1]|) + [Checked(i + 1)] + Descent(b, i + 2);
      } else {
        assert w1.trace + [] == w1.trace;
      }
    }
  }

  /** The whole run of a successful save under pass-through hooks. */
  lemma SaveIsNested(b: Bulk, w: World)
    requires |b.hooks| > 0 && Fits(b, w) && AllPassThrough(b)
    ensures var (w', out) := Exec(b, MutatorOf(b, 0), Mine(b, w, 0), w);
            out.Done? ==> w'.trace == w.trace + Descent(b, 0) + [Inserted] + Mirror(Descent(b, 0))
  {
    RunIsNested(b, 0, 0, Mine(b, w, 0), w);
  }
}
