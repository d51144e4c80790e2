/** Whatever the hooks of a bulk save do and however it ends, hooks are entered and left in properly nested order. */
module BulkNesting {
  import opened Wrappers
  import opened BulkCreate

  /** Reads a trace with a stack of the hooks that were entered and not left yet; None if some hook is left that is not
      the one entered last. */
  function Replay(t: seq<Event>, stack: seq<(nat, nat)>): Option<seq<(nat, nat)>> {
    if t == [] then Some(stack)
    else
      match t[0]
      case Entered(i, j) => Replay(t[1..], stack + [(i, j)])
      case Left(i, j) =>
        if stack != [] && stack[|stack| - 1] == (i, j) then Replay(t[1..], stack[..|stack| - 1]) else None
      case _ => Replay(t[1..], stack)
  }

  /** Every hook that is entered in t is left in t, the last one entered first, and no other hook is left. */
  ghost predicate Nested(t: seq<Event>) {
    forall stack :: Replay(t, stack) == Some(stack)
  }

  lemma {:induction false} ReplayAppend(a: seq<Event>, b: seq<Event>, stack: seq<(nat, nat)>)
    ensures Replay(a + b, stack) == if Replay(a, stack).Some? then Replay(b, Replay(a, stack).value) else None
    decreases |a|
  {
    if a == [] {
      assert a + b == b;
    } else {
      assert (a + b)[1..] == a[1..] + b && (a + b)[0] == a[0];
      match a[0]
      case Entered(i, j) => ReplayAppend(a[1..], b, stack + [(i, j)]);
      case Left(i, j) =>
        if stack != [] && stack[|stack| - 1] == (i, j) {
          ReplayAppend(a[1..], b, stack[..|stack| - 1]);
        }
      case _ => ReplayAppend(a[1..], b, stack);
    }
  }

  lemma NestedAppend(a: seq<Event>, b: seq<Event>)
    requires Nested(a) && Nested(b)
    ensures Nested(a + b)
  {
    forall stack
      ensures Replay(a + b, stack) == Some(stack)
    {
      ReplayAppend(a, b, stack);
    }
  }

  lemma NestedSingle(e: Event)
    requires !e.Entered? && !e.Left?
    ensures Nested([e])
  {
    assert [e][1..] == [];
  }

  lemma NestedAround(i: nat, j: nat, t: seq<Event>)
    requires Nested(t)
    ensures Nested([Entered(i, j)] + t + [Left(i, j)])
  {
    forall stack
      ensures Replay([Entered(i, j)] + t + [Left(i, j)], stack) == Some(stack)
    {
      var inside := stack + [(i, j)];
      assert [Entered(i, j)][1..] == [] && [Left(i, j)][1..] == [];
      assert inside[..|inside| - 1] == stack;
      assert Replay([Left(i, j)], inside) == Some(stack);
      ReplayAppend([Entered(i, j)], t, stack);
      ReplayAppend([Entered(i, j)] + t, [Left(i, j)], stack);
    }
  }

  /** What a run adds to the trace is properly nested. */
  ghost predicate Extends(w: World, w': World) {
    |w.trace| <= |w'.trace| && w'.trace[..|w.trace|] == w.trace && Nested(w'.trace[|w.trace|..])
  }

  lemma ExtendsBy(w: World, w': World, t: seq<Event>)
    requires w'.trace == w.trace + t && Nested(t)
    ensures Extends(w, w')
  {
    assert w'.trace[|w.trace|..] == t;
  }

  lemma ExtendsTwice(w: World, w1: World, w2: World)
    requires Extends(w, w1) && Extends(w1, w2)
    ensures Extends(w, w2)
  {
    var t, u := w1.trace[|w.trace|..], w2.trace[|w1.trace|..];
    NestedAppend(t, u);
    assert w1.trace == w.trace + t && w2.trace == w1.trace + u;
    assert w2.trace == w.trace + (t + u);
    ExtendsBy(w, w2, t + u);
  }

  /** A hook around a run. */
  lemma ExtendsAround(w: World, w1: World, w2: World, i: nat, j: nat)
    requires w1.trace == w.trace + [Entered(i, j)] && Extends(w1, w2)
    ensures Extends(w, Log(w2, Left(i, j)))
  {
    var t := w2.trace[|w1.trace|..];
    NestedAround(i, j, t);
    assert w2.trace == w1.trace + t;
    assert Log(w2, Left(i, j)).trace == w.trace + ([Entered(i, j)] + t + [Left(i, j)]);
    ExtendsBy(w, Log(w2, Left(i, j)), [Entered(i, j)] + t + [Left(i, j)]);
  }

  lemma ExtendsSame(w: World, w': World)
    requires w'.trace == w.trace
    ensures Extends(w, w')
  {
    assert w'.trace == w.trace + [];
    ExtendsBy(w, w', []);
  }

  lemma ExtendsOne(w: World, w': World, e: Event)
    requires w'.trace == w.trace + [e] && !e.Entered? && !e.Left?
    ensures Extends(w, w')
  {
    NestedSingle(e);
    ExtendsBy(w, w', [e]);
  }

  /** Every run of every mutator is properly nested: for any hooks, nil ones included, whether they retry, refuse,
      answer on their own, replace the mutation or turn outcomes around, and for any outcome. */
  lemma {:induction false} EveryRunIsNested(b: Bulk, mut: Mutator, m: nat, w: World)
    requires Fits(b, w) && Level(mut) < |b.hooks| && m < |w.store|
    ensures Extends(w, Exec(b, mut, m, w).0)
    decreases |b.hooks| - Level(mut), Size(mut), 0
  {
    match mut
    case Core(i) => CoreIsNested(b, i, m, w);
    case Wrapped(NilHook, i, j, inner) => EveryRunIsNested(b, inner, m, w);
    case Wrapped(Hook(edit, decide, retries, after), i, j, inner) =>
      var w1 := Edited(Log(w, Entered(i, j)), m, edit);
      match decide(w1.store[m].fields) {
        case Stop(out) =>
          ExtendsSame(w1, w1);
          ExtendsAround(w, w1, w1, i, j);
        case Forward =>
          AttemptsAreNested(b, inner, m, w1, retries);
          ExtendsAround(w, w1, Attempts(b, inner, m, w1, retries).0, i, j);
        case Replace(f) =>
          var w2 := w1.(store := w1.store + [Mutation(f, false, None)]);
          AttemptsAreNested(b, inner, |w1.store|, w2, retries);
          ExtendsAround(w, w2, Attempts(b, inner, |w1.store|, w2, retries).0, i, j);
      }
  }

  lemma {:induction false} CoreIsNested(b: Bulk, i: nat, m: nat, w: World)
    requires Fits(b, w) && i < |b.hooks| && m < |w.store|
    ensures Extends(w, Exec(b, Core(i), m, w).0)
    decreases |b.hooks| - i, 0, -1
  {
    if b.check(w.store[Mine(b, w, i)].fields).Some? {
      ExtendsSame(w, w);
    } else {
      var w1 := Specified(b, w, i, m);
      ExtendsOne(w, w1, Checked(i));
      var p := if i + 1 < |b.hooks| then Exec(b, MutatorOf(b, i + 1), Mine(b, w1, i + 1), w1) else Insert(b, w1);
      if i + 1 < |b.hooks| {
        EveryRunIsNested(b, MutatorOf(b, i + 1), Mine(b, w1, i + 1), w1);
      } else {
        ExtendsOne(w1, p.0, Inserted);
      }
      ExtendsTwice(w, w1, p.0);
      if p.1.Done? {
        ExtendsOne(p.0, Completed(p.0, i, m), Finished(i));
        ExtendsTwice(w, p.0, Completed(p.0, i, m));
      }
    }
  }

  lemma {:induction false} AttemptsAreNested(b: Bulk, mut: Mutator, m: nat, w: World, retries: nat)
    requires Fits(b, w) && Level(mut) < |b.hooks| && m < |w.store|
    ensures Extends(w, Attempts(b, mut, m, w, retries).0)
    decreases |b.hooks| - Level(mut), Size(mut), retries + 1
  {
    EveryRunIsNested(b, mut, m, w);
    var p := Exec(b, mut, m, w);
    if p.1.Failed? && retries > 0 {
      AttemptsAreNested(b, mut, m, p.0, retries - 1);
      ExtendsTwice(w, p.0, Attempts(b, mut, m, p.0, retries - 1).0);
    }
  }
}
