/** The hook chain around a mutation and the interceptor chain around a query: both fold a list of wrappers, last
    first, so that the first wrapper is the outermost. */
module Hooks {
  import opened Wrappers

  /** What the builder sees: its own mutation, and everything else a hook or the executor may touch. */
  datatype State<M, W> = State(mutation: M, world: W)

  /** A mutation or a value as it travels through the chain, where its dynamic type may be another one. */
  datatype AnyMutation<M> = Mine(m: M) | ForeignMutation

  datatype AnyValue<V> = Value(v: V) | ForeignValue

  datatype Failure<E> = Uninitialized | UnexpectedMutation | UnexpectedNode | InvalidField | Raised(e: E)

  type Mutator<!M, !W, !V, !E> = (State<M, W>, AnyMutation<M>) -> (State<M, W>, Result<AnyValue<V>, Failure<E>>)

  type Executor<!M, !W, !V, !E> = State<M, W> -> (State<M, W>, Result<V, Failure<E>>)

  /** A hook; None is a nil hook. */
  type Hook<!M, !W, !V, !E> = Option<Mutator<M, W, V, E> -> Mutator<M, W, V, E>>

  /** The innermost mutator: it stores the mutation it is handed into the builder, then executes. */
  function Base<M, W, V, E>(exec: Executor<M, W, V, E>): Mutator<M, W, V, E> {
    (st: State<M, W>, m: AnyMutation<M>) =>
      match m
      case ForeignMutation => (st, Err(UnexpectedMutation))
      case Mine(x) =>
        var (st', r) := exec(State(x, st.world));
        (st', match r case Ok(v) => Ok(Value(v)) case Err(e) => Err(e))
  }

  /** The chain: the first hook wraps the chain of the others. */
  function Chain<M, W, V, E>(hooks: seq<Hook<M, W, V, E>>, base: Mutator<M, W, V, E>): Mutator<M, W, V, E>
    requires forall h :: h in hooks ==> h.Some?
  {
    if hooks == [] then base
    else
      assert hooks[0] in hooks;
      hooks[0].value(Chain(hooks[1..], base))
  }

  /** What the caller of the chain gets back. */
  function Unwrapped<M, W, V, E>(
    p: (State<M, W>, Result<AnyValue<V>, Failure<E>>)): (State<M, W>, Result<V, Failure<E>>) {
    (p.0, match p.1
          case Err(e) => Err(e)
          case Ok(ForeignValue) => Err(UnexpectedNode)
          case Ok(Value(v)) => Ok(v))
  }

  /** Runs an operation under hooks. A nil hook anywhere fails before anything is executed. */
  method WithHooks<M, W, V, E>(exec: Executor<M, W, V, E>, st: State<M, W>, hooks: seq<Hook<M, W, V, E>>)
    returns (st': State<M, W>, r: Result<V, Failure<E>>)
    ensures None in hooks ==> st' == st && r == Err(Uninitialized)
    ensures None !in hooks ==> (st', r) == Unwrapped(Chain(hooks, Base(exec))(st, Mine(st.mutation)))
    ensures hooks == [] ==> (st', r) == exec(st)
  {
    if |hooks| == 0 {
      EmptyChain(exec, st);
      var p := exec(st);
      return p.0, p.1;
    }
    var mut := Base(exec);
    var i := |hooks|;
    while i > 0
      invariant 0 <= i <= |hooks|
      invariant forall j :: i <= j < |hooks| ==> hooks[j].Some?
      invariant mut == Chain(hooks[i..], Base(exec))
    {
      i := i - 1;
      if hooks[i].None? {
        assert hooks[i] in hooks;
        return st, Err(Uninitialized);
      }
      assert hooks[i..][1..] == hooks[i + 1..];
      mut := hooks[i].value(mut);
    }
    assert hooks[0..] == hooks;
    var p := Unwrapped(mut(st, Mine(st.mutation)));
    return p.0, p.1;
  }

  /** The shortcut for an empty list equals the general path. */
  lemma EmptyChain<M, W, V, E>(exec: Executor<M, W, V, E>, st: State<M, W>)
    ensures Unwrapped(Chain([], Base(exec))(st, Mine(st.mutation))) == exec(st)
  {
    assert State(st.mutation, st.world) == st;
  }

  /** Chains compose: hooks registered on the client and then on the schema nest in that order. */
  lemma {:induction false} ChainAppend<M, W, V, E>(
    a: seq<Hook<M, W, V, E>>, b: seq<Hook<M, W, V, E>>, base: Mutator<M, W, V, E>)
    requires forall h :: h in a + b ==> h.Some?
    ensures (forall h :: h in a ==> h.Some?) && (forall h :: h in b ==> h.Some?)
    ensures Chain(a + b, base) == Chain(a, Chain(b, base))
  {
    assert forall h :: h in a ==> h in a + b;
    assert forall h :: h in b ==> h in a + b;
    if a == [] {
      assert a + b == b;
    } else {
      assert (a + b)[1..] == a[1..] + b;
      ChainAppend(a[1..], b, base);
    }
  }

  // ---------- hooks that replace the mutation ----------

  /** A hook that hands a rewritten mutation to the next one. */
  function Rewrite<M, W, V, E>(f: M -> M): Hook<M, W, V, E> {
    Some((next: Mutator<M, W, V, E>) =>
           (st: State<M, W>, m: AnyMutation<M>) => match m case Mine(x) => next(st, Mine(f(x))) case _ => next(st, m))
  }

  function Rewrites<M, W, V, E>(fs: seq<M -> M>): (hooks: seq<Hook<M, W, V, E>>)
    ensures |hooks| == |fs|
    ensures forall h :: h in hooks ==> h.Some?
  {
    if fs == [] then [] else [Rewrite(fs[0])] + Rewrites(fs[1..])
  }

  /** The rewritings in hook order, the outermost first. */
  function Rewritten<M>(fs: seq<M -> M>, x: M): M {
    if fs == [] then x else Rewritten(fs[1..], fs[0](x))
  }

  /** Rewriting hooks execute on the mutation all of them produced, outermost first, and it is that mutation the
      builder ends up holding when it executes. */
  lemma {:induction false} ExecutesOnRewritten<M, W, V, E>(
    fs: seq<M -> M>, exec: Executor<M, W, V, E>, st: State<M, W>, x: M)
    ensures Unwrapped(Chain(Rewrites(fs), Base(exec))(st, Mine(x))) == exec(State(Rewritten(fs, x), st.world))
  {
    if fs == [] {
      assert Rewrites<M, W, V, E>(fs) == [];
    } else {
      var hooks := Rewrites<M, W, V, E>(fs);
      assert hooks[0] == Rewrite(fs[0]) && hooks[1..] == Rewrites(fs[1..]);
      ExecutesOnRewritten(fs[1..], exec, st, fs[0](x));
    }
  }

  /** The last rewriting is applied last, on what the ones before it produced. */
  lemma {:induction false} RewrittenLast<M>(fs: seq<M -> M>, f: M -> M, x: M)
    ensures Rewritten(fs + [f], x) == f(Rewritten(fs, x))
  {
    if fs == [] {
      assert fs + [f] == [f];
    } else {
      assert (fs + [f])[1..] == fs[1..] + [f];
      RewrittenLast(fs[1..], f, fs[0](x));
    }
  }

  // ---------- hooks that change dynamic types ----------

  /** A hook that passes on a mutation of another type. */
  function Disguise<M, W, V, E>(): Hook<M, W, V, E> {
    Some((next: Mutator<M, W, V, E>) => (st: State<M, W>, m: AnyMutation<M>) => next(st, ForeignMutation))
  }

  /** A hook that answers with a value of another type, whatever the operation returned. */
  function Exchange<M, W, V, E>(): Hook<M, W, V, E> {
    Some((next: Mutator<M, W, V, E>) =>
           (st: State<M, W>, m: AnyMutation<M>) =>
             var p := next(st, m);
             (p.0, if p.1.Ok? then Ok(ForeignValue) else p.1))
  }

  /** A mutation of another type reaches the operation through any rewriting hooks, and is refused there: nothing is
      executed, nothing changes. */
  lemma {:induction false} ForeignMutationRefused<M, W, V, E>(
    fs: seq<M -> M>, exec: Executor<M, W, V, E>, st: State<M, W>, x: M)
    ensures Chain(Rewrites(fs), Base(exec))(st, ForeignMutation) == (st, Err(UnexpectedMutation))
    ensures Unwrapped(Chain([Disguise()] + Rewrites(fs), Base(exec))(st, Mine(x))) == (st, Err(UnexpectedMutation))
  {
    var hooks := Rewrites<M, W, V, E>(fs);
    var all := [Disguise<M, W, V, E>()] + hooks;
    assert all[0] == Disguise<M, W, V, E>() && all[1..] == hooks;
    if fs == [] {
      assert hooks == [];
    } else {
      assert hooks[0] == Rewrite(fs[0]) && hooks[1..] == Rewrites(fs[1..]);
      ForeignMutationRefused(fs[1..], exec, st, x);
    }
  }

  /** A value of another type is refused after the operation ran; an error is handed on. */
  lemma ForeignValueRefused<M, W, V, E>(fs: seq<M -> M>, exec: Executor<M, W, V, E>, st: State<M, W>, x: M)
    ensures var p := exec(State(Rewritten(fs, x), st.world));
            Unwrapped(Chain([Exchange()] + Rewrites(fs), Base(exec))(st, Mine(x))) ==
            (p.0, if p.1.Ok? then Err(UnexpectedNode) else p.1)
  {
    var hooks := Rewrites<M, W, V, E>(fs);
    var all := [Exchange<M, W, V, E>()] + hooks;
    assert all[0] == Exchange<M, W, V, E>() && all[1..] == hooks;
    ExecutesOnRewritten(fs, exec, st, x);
  }

  // ---------- hooks that record the order of the run ----------

  datatype Step = Before(hook: nat) | After(hook: nat)

  /** A hook that passes through, noting when it is entered and left. */
  function Recording<M, V, E>(k: nat): Hook<M, seq<Step>, V, E> {
    Some((next: Mutator<M, seq<Step>, V, E>) =>
           (st: State<M, seq<Step>>, m: AnyMutation<M>) =>
             var p := next(State(st.mutation, st.world + [Before(k)]), m);
             (State(p.0.mutation, p.0.world + [After(k)]), p.1))
  }

  function Recordings<M, V, E>(from: nat, n: nat): (hooks: seq<Hook<M, seq<Step>, V, E>>)
    ensures |hooks| == n
    ensures forall h :: h in hooks ==> h.Some?
    decreases n
  {
    if n == 0 then [] else [Recording(from)] + Recordings(from + 1, n - 1)
  }

  function Entering(from: nat, n: nat): seq<Step>
    decreases n
  {
    if n == 0 then [] else [Before(from)] + Entering(from + 1, n - 1)
  }

  function Leaving(from: nat, n: nat): seq<Step>
    decreases n
  {
    if n == 0 then [] else Leaving(from + 1, n - 1) + [After(from)]
  }

  /** Hooks nest: they are entered first to last, then the operation runs, then they are left last to first, and
      they all see its outcome unchanged. */
  lemma {:induction false} RecordingsNest<M, V, E>(from: nat, n: nat, exec: Executor<M, seq<Step>, V, E>,
                                                   st: State<M, seq<Step>>, x: M)
    ensures var inner := exec(State(x, st.world + Entering(from, n)));
            Unwrapped(Chain(Recordings(from, n), Base(exec))(st, Mine(x))) ==
            (State(inner.0.mutation, inner.0.world + Leaving(from, n)), inner.1)
    decreases n
  {
    if n == 0 {
      assert Recordings<M, V, E>(from, n) == [];
      assert st.world + [] == st.world;
      var inner := exec(State(x, st.world));
      assert inner.0.world + [] == inner.0.world;
    } else {
      var hooks := Recordings<M, V, E>(from, n);
      assert hooks[0] == Recording(from) && hooks[1..] == Recordings(from + 1, n - 1);
      var st1 := State(st.mutation, st.world + [Before(from)]);
      RecordingsNest(from + 1, n - 1, exec, st1, x);
      assert st1.world + Entering(from + 1, n - 1) == st.world + Entering(from, n);
      var inner := exec(State(x, st.world + Entering(from, n)));
      assert (inner.0.world + Leaving(from + 1, n - 1)) + [After(from)] == inner.0.world + Leaving(from, n);
    }
  }

  /** The steps before the operation enter the hooks first to last, those after it leave them last to first. */
  lemma {:induction false} EnteredAndLeft(from: nat, n: nat)
    ensures |Entering(from, n)| == |Leaving(from, n)| == n
    ensures forall k :: 0 <= k < n ==> Entering(from, n)[k] == Before(from + k)
    ensures forall k :: 0 <= k < n ==> Leaving(from, n)[k] == After(from + n - 1 - k)
    decreases n
  {
    if n > 0 {
      EnteredAndLeft(from + 1, n - 1);
    }
  }

  // ---------- interceptors ----------

  /** An interceptor of a query; None is a nil interceptor. Some interceptors also traverse the query, and may
      change it, while it is prepared. */
  datatype Interceptor<!Q, !W, !V, !E> = Interceptor(traverse: Option<State<Q, W> -> (State<Q, W>, Option<E>)>,
                                                     wrap: Mutator<Q, W, V, E> -> Mutator<Q, W, V, E>)

  function Wraps<Q, W, V, E>(inters: seq<Option<Interceptor<Q, W, V, E>>>): (hooks: seq<Hook<Q, W, V, E>>)
    ensures |hooks| == |inters|
    ensures forall i :: 0 <= i < |inters| ==> hooks[i] == if inters[i].None? then None else Some(inters[i].value.wrap)
  {
    if inters == [] then []
    else [if inters[0].None? then None else Some(inters[0].value.wrap)] + Wraps(inters[1..])
  }

  /** Runs a querier under interceptors: the same fold as for hooks, but without a nil check, so that a nil
      interceptor panics. */
  method WithInterceptors<Q, W, V, E>(qr: Mutator<Q, W, V, E>, st: State<Q, W>, inters: seq<Hook<Q, W, V, E>>)
    returns (st': State<Q, W>, r: Result<V, Failure<E>>, panicked: bool)
    ensures panicked <==> None in inters
    ensures !panicked ==> (st', r) == Unwrapped(Chain(inters, qr)(st, Mine(st.mutation)))
  {
    var q := qr;
    var i := |inters|;
    while i > 0
      invariant 0 <= i <= |inters|
      invariant forall j :: i <= j < |inters| ==> inters[j].Some?
      invariant q == Chain(inters[i..], qr)
    {
      i := i - 1;
      if inters[i].None? {
        assert inters[i] in inters;
        return st, Err(Uninitialized), true;
      }
      assert inters[i..][1..] == inters[i + 1..];
      q := inters[i].value(q);
    }
    assert inters[0..] == inters;
    var p := Unwrapped(q(st, Mine(st.mutation)));
    return p.0, p.1, false;
  }

  /** The traversals, in interceptor order, up to the first error or nil interceptor. */
  function Traversed<Q, W, V, E>(
    st: State<Q, W>, inters: seq<Option<Interceptor<Q, W, V, E>>>): (State<Q, W>, Option<Failure<E>>) {
    if inters == [] then (st, None)
    else
      var n := |inters| - 1;
      var p := Traversed(st, inters[..n]);
      if p.1.Some? then p
      else if inters[n].None? then (p.0, Some(Uninitialized))
      else if inters[n].value.traverse.None? then p
      else
        var t := inters[n].value.traverse.value(p.0);
        (t.0, match t.1 case None => None case Some(e) => Some(Raised(e)))
  }

  lemma {:induction false} TraversedNil<Q, W, V, E>(st: State<Q, W>, inters: seq<Option<Interceptor<Q, W, V, E>>>)
    requires None in inters
    ensures Traversed(st, inters).1.Some?
  {
    var n := |inters| - 1;
    if None in inters[..n] {
      TraversedNil(st, inters[..n]);
    } else {
      assert inters == inters[..n] + [inters[n]];
    }
  }

  lemma {:induction false} TraversedStops<Q, W, V, E>(
    st: State<Q, W>, inters: seq<Option<Interceptor<Q, W, V, E>>>, i: nat)
    requires i <= |inters| && Traversed(st, inters[..i]).1.Some?
    ensures Traversed(st, inters) == Traversed(st, inters[..i])
    decreases |inters|
  {
    if i == |inters| {
      assert inters[..i] == inters;
    } else {
      assert inters[..|inters| - 1][..i] == inters[..i];
      TraversedStops(st, inters[..|inters| - 1], i);
    }
  }

  /** How a query says what it selects and where it comes from: its field list, which of these are columns, and the
      path it follows from another query, if any, which sets its source. */
  datatype Selection<!Q, !W, !F, !E> = Selection(fields: Q -> seq<F>, isColumn: F -> bool,
                                                 path: Option<State<Q, W> -> (State<Q, W>, Option<E>)>)

  /** What follows the traversals: the fields of the query as the traversals left it are validated, then the path is
      followed. */
  function Resolved<Q, W, F, E>(st: State<Q, W>, sel: Selection<Q, W, F, E>): (State<Q, W>, Option<Failure<E>>) {
    if exists i :: 0 <= i < |sel.fields(st.mutation)| && !sel.isColumn(sel.fields(st.mutation)[i])
      then (st, Some(InvalidField))
    else if sel.path.None? then (st, None)
    else
      var t := sel.path.value(st);
      (t.0, match t.1 case None => None case Some(e) => Some(Raised(e)))
  }

  function Prepared<Q, W, V, F, E>(
    st: State<Q, W>, inters: seq<Option<Interceptor<Q, W, V, E>>>, sel: Selection<Q, W, F, E>):
    (State<Q, W>, Option<Failure<E>>)
  {
    var p := Traversed(st, inters);
    if p.1.Some? then p else Resolved(p.0, sel)
  }

  /** One traversal: an interceptor that does not traverse leaves the query alone. */
  ghost predicate Passes<Q, W, V, E>(i: Option<Interceptor<Q, W, V, E>>, st: State<Q, W>, st': State<Q, W>) {
    i.Some? && if i.value.traverse.None? then st' == st else i.value.traverse.value(st) == (st', None)
  }

  /** The traversal that ends the preparation: a nil interceptor, or one that raises. */
  ghost predicate Breaks<Q, W, V, E>(i: Option<Interceptor<Q, W, V, E>>, st: State<Q, W>, st': State<Q, W>,
                                     e: Failure<E>) {
    if i.None? then st' == st && e == Uninitialized
    else i.value.traverse.Some? && e.Raised? && i.value.traverse.value(st) == (st', Some(e.e))
  }

  /** The course of the traversals: each starts where the one before it ended, until one of them ends the preparation
      or all have passed. */
  lemma {:induction false} TraversedCourse<Q, W, V, E>(
    st: State<Q, W>, inters: seq<Option<Interceptor<Q, W, V, E>>>) returns (states: seq<State<Q, W>>)
    ensures 0 < |states| <= |inters| + 1 && states[0] == st
    ensures forall i :: 0 <= i < |states| - 1 ==> Passes(inters[i], states[i], states[i + 1])
    ensures var (st', e) := Traversed(st, inters);
            var last := |states| - 1;
            match e
            case None => last == |inters| && st' == states[last]
            case Some(e) => last < |inters| && Breaks(inters[last], states[last], st', e)
  {
    states := [st];
    if inters != [] {
      var n := |inters| - 1;
      var before := inters[..n];
      states := TraversedCourse(st, before);
      assert forall i :: 0 <= i < |states| - 1 ==> before[i] == inters[i];
      var p := Traversed(st, before);
      if p.1.None? {
        var q := Traversed(st, inters);
        if q.1.None? {
          states := states + [q.0];
        }
      }
    }
  }

  /** What follows the traversals, when they end in state s without an error: a field that is no column is an error and
      the path is not followed; otherwise the path, if there is one, decides. */
  lemma PreparedMeaning<Q, W, V, F, E>(
    st: State<Q, W>, inters: seq<Option<Interceptor<Q, W, V, E>>>, sel: Selection<Q, W, F, E>)
    ensures var (s, e) := Traversed(st, inters);
            var r := Prepared(st, inters, sel);
            if e.Some? then r == (s, e)
            else if exists i :: 0 <= i < |sel.fields(s.mutation)| && !sel.isColumn(sel.fields(s.mutation)[i])
              then r == (s, Some(InvalidField))
            else match sel.path
              case None => r == (s, None)
              case Some(path) =>
                && r.0 == path(s).0
                && (r.1.None? <==> path(s).1.None?)
                && (r.1.Some? ==> r.1 == Some(Raised(path(s).1.value)))
  {
  }

  method Traverse<Q, W, V, E>(st: State<Q, W>, inters: seq<Option<Interceptor<Q, W, V, E>>>)
    returns (st': State<Q, W>, e: Option<Failure<E>>)
    ensures (st', e) == Traversed(st, inters)
  {
    st', e := st, None;
    for i := 0 to |inters|
      invariant e.None? && (st', e) == Traversed(st, inters[..i])
    {
      assert inters[..i + 1][..i] == inters[..i];
      if inters[i].None? {
        e := Some(Uninitialized);
        TraversedStops(st, inters, i + 1);
        return;
      }
      if inters[i].value.traverse.Some? {
        var t := inters[i].value.traverse.value(st');
        st' := t.0;
        if t.1.Some? {
          e := Some(Raised(t.1.value));
          TraversedStops(st, inters, i + 1);
          return;
        }
      }
    }
    assert inters[..|inters|] == inters;
  }

  /** Prepares a query: traversals, field validation, path, in this order; the first error ends it. */
  method PrepareQuery<Q, W, V, F, E>(
    st: State<Q, W>, inters: seq<Option<Interceptor<Q, W, V, E>>>, sel: Selection<Q, W, F, E>)
    returns (st': State<Q, W>, e: Option<Failure<E>>)
    ensures (st', e) == Prepared(st, inters, sel)
  {
    st', e := Traverse(st, inters);
    if e.Some? {
      return;
    }
    var fields := sel.fields(st'.mutation);
    for i := 0 to |fields|
      invariant forall j :: 0 <= j < i ==> sel.isColumn(fields[j])
    {
      if !sel.isColumn(fields[i]) {
        return st', Some(InvalidField);
      }
    }
    if sel.path.Some? {
      var t := sel.path.value(st');
      st' := t.0;
      if t.1.Some? {
        e := Some(Raised(t.1.value));
      }
    }
  }

  /** Preparing and then running a query: preparation catches a nil interceptor, so running never panics. */
  method All<Q, W, V, F, E>(qr: Mutator<Q, W, V, E>, st: State<Q, W>, inters: seq<Option<Interceptor<Q, W, V, E>>>,
                            sel: Selection<Q, W, F, E>)
    returns (st': State<Q, W>, r: Result<V, Failure<E>>, panicked: bool)
    ensures !panicked
    ensures None in inters ==> r.Err?
    ensures var p := Prepared(st, inters, sel);
            if p.1.Some? then (st', r) == (p.0, Err(p.1.value))
            else
              && None !in Wraps(inters)
              && (st', r) == Unwrapped(Chain(Wraps(inters), qr)(p.0, Mine(p.0.mutation)))
  {
    if None in inters {
      TraversedNil(st, inters);
    }
    var e;
    st', e := PrepareQuery(st, inters, sel);
    if e.Some? {
      return st', Err(e.value), false;
    }
    forall i | 0 <= i < |inters|
      ensures inters[i].Some?
    {
      assert inters[i] in inters;
    }
    st', r, panicked := WithInterceptors(qr, st', Wraps(inters));
  }
}
