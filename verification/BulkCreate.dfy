/** Saving many accounts at once: one mutator per builder, each wrapped in the builder's hooks, each calling the next
    builder's mutator; the last one issues a single batch, and the results are filled in while unwinding.

    Go closures become data here: a mutator is a core (create position i) under some hooks, and a pointer to a
    mutation is an index into the store. */
module BulkCreate {
  import opened Wrappers
  import opened AccountColumns
  import opened AccountMutations

  /** A mutation object: its fields, whether it was executed, and the node whose id it exposes. */
  datatype Mutation = Mutation(fields: Fields, done: bool, node: Option<nat>)

  datatype Spec = Spec(fields: Fields, id: Option<int>)

  datatype Node = Node(fields: Fields, id: int)

  datatype Error = Invalid(builder: nat, column: Column) | BatchFailed | HookError(code: int)

  datatype Outcome = Done | Failed(e: Error)

  /** What a hook does with the mutation it gets: return on its own, pass it on, or pass on another one. */
  datatype Decision = Stop(out: Outcome) | Forward | Replace(fields: Fields)

  /** A hook: it may edit the mutation in place, decides what to do, calls the next mutator once and then again after
      an error at most `retries` times, and may turn the outcome into another one. NilHook is a nil function. */
  datatype Hook =
    | NilHook
    | Hook(edit: Fields -> Fields, decide: Fields -> Decision, retries: nat, after: Outcome -> Outcome)

  datatype Mutator = Core(builder: nat) | Wrapped(hook: Hook, builder: nat, position: nat, inner: Mutator)

  function Level(mut: Mutator): nat {
    match mut
    case Core(i) => i
    case Wrapped(_, _, _, inner) => Level(inner)
  }

  function Size(mut: Mutator): nat {
    match mut
    case Core(_) => 0
    case Wrapped(_, _, _, inner) => 1 + Size(inner)
  }

  datatype Event = Entered(builder: nat, hook: nat) | Left(builder: nat, hook: nat) | Checked(builder: nat) | Inserted
                 | Finished(builder: nat)

  /** A batch that was issued: the specs as they were then, and whether the database took it. */
  datatype Batch = Batch(specs: seq<Option<Spec>>, ok: bool)

  /** The state the mutators work on: the mutation objects, which of them each builder holds, and, by position, the
      nodes and specs. */
  datatype World = World(store: seq<Mutation>, current: seq<nat>, nodes: seq<Option<Node>>, specs: seq<Option<Spec>>,
                         batches: seq<Batch>, trace: seq<Event>)

  /** What a save is about: the builder at each position, its hooks, the check of a mutation's fields, which names the
      first field that is missing or invalid, and the database, which answers a batch with failure or ids. */
  datatype Bulk = Bulk(builders: seq<nat>, hooks: seq<seq<Hook>>, check: Fields -> Option<Column>,
                       db: (nat, seq<Option<Spec>>) -> Option<seq<Option<int>>>)

  ghost predicate NoNil(b: Bulk) {
    forall i, j :: 0 <= i < |b.hooks| && 0 <= j < |b.hooks[i]| ==> b.hooks[i][j] != NilHook
  }

  /** A builder that is listed twice has its hooks at both positions. */
  ghost predicate Proper(b: Bulk) {
    && |b.builders| == |b.hooks|
    && forall i, k :: 0 <= i < |b.builders| && 0 <= k < |b.builders| && b.builders[i] == b.builders[k] ==>
         b.hooks[i] == b.hooks[k]
  }

  ghost predicate Fits(b: Bulk, w: World) {
    && Proper(b) && |w.nodes| == |w.specs| == |b.hooks|
    && (forall k :: 0 <= k < |b.builders| ==> b.builders[k] < |w.current|)
    && (forall x :: 0 <= x < |w.current| ==> w.current[x] < |w.store|)
  }

  /** The mutation that the builder at position i holds. */
  function Mine(b: Bulk, w: World, i: nat): nat
    requires i < |b.builders| && b.builders[i] < |w.current|
  {
    w.current[b.builders[i]]
  }

  /** The hooks of a builder from position j on, around its core: hook 0 is the outermost. */
  function WrapFrom(hooks: seq<Hook>, i: nat, j: nat): (mut: Mutator)
    requires j <= |hooks|
    ensures Level(mut) == i
    decreases |hooks| - j
  {
    if j == |hooks| then Core(i) else Wrapped(hooks[j], i, j, WrapFrom(hooks, i, j + 1))
  }

  function MutatorOf(b: Bulk, i: nat): (mut: Mutator)
    requires i < |b.hooks|
    ensures Level(mut) == i
  {
    WrapFrom(b.hooks[i], i, 0)
  }

  // ---------- the elementary steps ----------

  function Log(w: World, e: Event): World {
    w.(trace := w.trace + [e])
  }

  function Edited(w: World, m: nat, edit: Fields -> Fields): World
    requires m < |w.store|
  {
    w.(store := w.store[m := w.store[m].(fields := edit(w.store[m].fields))])
  }

  /** The builder at position i takes the mutation it was handed, at all its positions, and the node and spec of this
      position are created from it. */
  function Specified(b: Bulk, w: World, i: nat, m: nat): World
    requires i < |b.builders| && b.builders[i] < |w.current| && i < |w.nodes| == |w.specs| && m < |w.store|
  {
    w.(current := w.current[b.builders[i] := m],
       nodes := w.nodes[i := Some(Node(w.store[m].fields, 0))],
       specs := w.specs[i := Some(Spec(w.store[m].fields, None))],
       trace := w.trace + [Checked(i)])
  }

  function WithIDs(specs: seq<Option<Spec>>, ids: seq<Option<int>>): (r: seq<Option<Spec>>)
    ensures |r| == |specs|
    ensures forall k :: 0 <= k < |specs| ==>
              r[k] == if specs[k].None? then None else Some(specs[k].value.(id := if k < |ids| then ids[k] else None))
  {
    seq(|specs|, k requires 0 <= k < |specs| =>
      if specs[k].None? then None else Some(specs[k].value.(id := if k < |ids| then ids[k] else None)))
  }

  /** One batch with all the specs. */
  function Insert(b: Bulk, w: World): (World, Outcome) {
    var answer := b.db(|w.batches|, w.specs);
    var w1 := w.(batches := w.batches + [Batch(w.specs, answer.Some?)], trace := w.trace + [Inserted]);
    if answer.None? then (w1, Failed(BatchFailed)) else (w1.(specs := WithIDs(w.specs, answer.value)), Done)
  }

  /** After the next mutator succeeded: the mutation exposes its node's id and is done. */
  function Completed(w: World, i: nat, m: nat): World
    requires i < |w.nodes| && |w.nodes| == |w.specs| && m < |w.store|
  {
    var id := if w.specs[i].Some? then w.specs[i].value.id else None;
    w.(store := w.store[m := w.store[m].(node := Some(i), done := true)],
       nodes := if id.Some? && w.nodes[i].Some? then w.nodes[i := Some(w.nodes[i].value.(id := id.value))] else w.nodes,
       trace := w.trace + [Finished(i)])
  }

  /** Back in the core of builder i: an error is handed on, after success the mutation is completed. */
  function Unwound(p: (World, Outcome), i: nat, m: nat): (World, Outcome)
    requires i < |p.0.nodes| && |p.0.nodes| == |p.0.specs| && m < |p.0.store|
  {
    if p.1.Failed? then p else (Completed(p.0, i, m), Done)
  }

  // ---------- running a mutator ----------

  /** Runs a mutator on mutation m. */
  function Exec(b: Bulk, mut: Mutator, m: nat, w: World): (r: (World, Outcome))
    requires Fits(b, w) && Level(mut) < |b.hooks| && m < |w.store|
    ensures Fits(b, r.0) && |w.store| <= |r.0.store|
    decreases |b.hooks| - Level(mut), Size(mut), 0
  {
    match mut
    case Core(i) =>
      var bad := b.check(w.store[Mine(b, w, i)].fields);
      if bad.Some? then (w, Failed(Invalid(i, bad.value)))
      else
        var w1 := Specified(b, w, i, m);
        Unwound(if i + 1 < |b.hooks| then Exec(b, MutatorOf(b, i + 1), Mine(b, w1, i + 1), w1) else Insert(b, w1), i, m)
    case Wrapped(NilHook, i, j, inner) => Exec(b, inner, m, w)
    case Wrapped(Hook(edit, decide, retries, after), i, j, inner) =>
      var w1 := Edited(Log(w, Entered(i, j)), m, edit);
      match decide(w1.store[m].fields)
      case Stop(out) => (Log(w1, Left(i, j)), out)
      case Forward =>
        var p := Attempts(b, inner, m, w1, retries);
        (Log(p.0, Left(i, j)), after(p.1))
      case Replace(f) =>
        var w2 := w1.(store := w1.store + [Mutation(f, false, None)]);
        var p := Attempts(b, inner, |w1.store|, w2, retries);
        (Log(p.0, Left(i, j)), after(p.1))
  }

  /** Calls a mutator, and again after an error, at most `retries` times more. */
  function Attempts(b: Bulk, mut: Mutator, m: nat, w: World, retries: nat): (r: (World, Outcome))
    requires Fits(b, w) && Level(mut) < |b.hooks| && m < |w.store|
    ensures Fits(b, r.0) && |w.store| <= |r.0.store|
    decreases |b.hooks| - Level(mut), Size(mut), retries + 1
  {
    var p := Exec(b, mut, m, w);
    if p.1.Failed? && retries > 0 then Attempts(b, mut, m, p.0, retries - 1) else p
  }

  /** The store after the builders at the first n positions have filled in their defaults, one after the other. */
  function Defaulted(b: Bulk, store: seq<Mutation>, current: seq<nat>, n: nat, rt: Runtime): (s: seq<Mutation>)
    requires n <= |b.builders| && forall k :: 0 <= k < |b.builders| ==> b.builders[k] < |current|
    requires forall x :: 0 <= x < |current| ==> current[x] < |store|
    ensures |s| == |store|
  {
    if n == 0 then store
    else
      var s := Defaulted(b, store, current, n - 1, rt);
      var m := current[b.builders[n - 1]];
      s[m := s[m].(fields := Defaults(s[m].fields, rt).0)]
  }

  datatype Saved = Saved(nodes: seq<Option<Node>>) | NotSaved(e: Error) | Panicked

  /** The world a save starts its mutators in: defaults filled in, nothing created yet. */
  function Started(b: Bulk, w: World, rt: Runtime): World
    requires forall k :: 0 <= k < |b.builders| ==> b.builders[k] < |w.current|
    requires forall x :: 0 <= x < |w.current| ==> w.current[x] < |w.store|
  {
    w.(store := Defaulted(b, w.store, w.current, |b.builders|, rt),
       nodes := seq(|b.hooks|, _ => None), specs := seq(|b.hooks|, _ => None))
  }

  class AccountCreateBulk {
    const bulk: Bulk
    const runtime: Runtime
    const err: Option<Error>
    var store: seq<Mutation>
    var current: seq<nat>
    var nodes: seq<Option<Node>>
    var specs: seq<Option<Spec>>
    var batches: seq<Batch>
    var trace: seq<Event>
    var mutators: seq<Mutator>

    constructor (bulk: Bulk, runtime: Runtime, err: Option<Error>, store: seq<Mutation>, current: seq<nat>)
      ensures this.bulk == bulk && this.runtime == runtime && this.err == err
      ensures State() == World(store, current, [], [], [], [])
    {
      this.bulk, this.runtime, this.err, this.store, this.current := bulk, runtime, err, store, current;
      nodes, specs, batches, trace, mutators := [], [], [], [], [];
    }

    function State(): World
      reads this
    {
      World(store, current, nodes, specs, batches, trace)
    }

    /** The mutators are in place: one per builder. */
    ghost predicate Populated()
      reads this
    {
      && |mutators| == |bulk.hooks|
      && forall k :: 0 <= k < |mutators| ==> mutators[k] == MutatorOf(bulk, k)
    }

    method Specify(i: nat, m: nat)
      requires Fits(bulk, State()) && i < |bulk.hooks| && m < |store|
      modifies this`current, this`nodes, this`specs, this`trace
      ensures State() == Specified(bulk, old(State()), i, m)
    {
      current := current[bulk.builders[i] := m];
      nodes := nodes[i := Some(Node(store[m].fields, 0))];
      specs := specs[i := Some(Spec(store[m].fields, None))];
      trace := trace + [Checked(i)];
    }

    method IssueBatch() returns (out: Outcome)
      modifies this`specs, this`batches, this`trace
      ensures (State(), out) == Insert(bulk, old(State()))
    {
      var answer := bulk.db(|batches|, specs);
      batches, trace := batches + [Batch(specs, answer.Some?)], trace + [Inserted];
      if answer.None? {
        return Failed(BatchFailed);
      }
      specs := WithIDs(specs, answer.value);
      return Done;
    }

    method Complete(i: nat, m: nat)
      requires Fits(bulk, State()) && i < |bulk.hooks| && m < |store|
      modifies this`store, this`nodes, this`trace
      ensures State() == Completed(old(State()), i, m)
    {
      store := store[m := store[m].(node := Some(i))];
      if specs[i].Some? && specs[i].value.id.Some? && nodes[i].Some? {
        nodes := nodes[i := Some(nodes[i].value.(id := specs[i].value.id.value))];
      }
      store := store[m := store[m].(done := true)];
      trace := trace + [Finished(i)];
    }

    /** The core mutator of position i. */
    method MutateCore(i: nat, m: nat) returns (out: Outcome)
      requires Populated() && NoNil(bulk) && Fits(bulk, State()) && i < |bulk.hooks| && m < |store|
      modifies this`store, this`current, this`nodes, this`specs, this`batches, this`trace
      ensures (State(), out) == Exec(bulk, Core(i), m, old(State()))
      decreases |bulk.hooks| - i, 0, 0, 1
    {
      var bad := bulk.check(store[current[bulk.builders[i]]].fields);
      if bad.Some? {
        return Failed(Invalid(i, bad.value));
      }
      Specify(i, m);
      out := Proceed(i, m);
    }

    /** What follows once position i has its spec: the next mutator or, at the end, the batch, and then completion. */
    method Proceed(i: nat, m: nat) returns (out: Outcome)
      requires Populated() && NoNil(bulk) && Fits(bulk, State()) && i < |bulk.hooks| && m < |store|
      modifies this`store, this`current, this`nodes, this`specs, this`batches, this`trace
      ensures var w := old(State());
              var inner := if i + 1 < |bulk.hooks| then Exec(bulk, MutatorOf(bulk, i + 1), Mine(bulk, w, i + 1), w)
                           else Insert(bulk, w);
              (State(), out) == Unwound(inner, i, m)
      decreases |bulk.hooks| - i, 0, 0, 0
    {
      if i + 1 < |mutators| {
        out := Mutate(mutators[i + 1], current[bulk.builders[i + 1]]);
      } else {
        out := IssueBatch();
      }
      if out.Done? {
        Complete(i, m);
      }
    }

    /** Runs a mutator: its hooks from the outside in, then its core. */
    method Mutate(mut: Mutator, m: nat) returns (out: Outcome)
      requires Populated() && NoNil(bulk) && Fits(bulk, State()) && Level(mut) < |bulk.hooks| && m < |store|
      modifies this`store, this`current, this`nodes, this`specs, this`batches, this`trace
      ensures (State(), out) == Exec(bulk, mut, m, old(State()))
      decreases |bulk.hooks| - Level(mut), Size(mut), 0, 2
    {
      match mut {
        case Core(i) => out := MutateCore(i, m);
        case Wrapped(NilHook, i, j, inner) => out := Mutate(inner, m);
        case Wrapped(Hook(edit, decide, retries, after), i, j, inner) =>
          trace := trace + [Entered(i, j)];
          store := store[m := store[m].(fields := edit(store[m].fields))];
          out := RunHook(mut, m);
          trace := trace + [Left(i, j)];
      }
    }

    /** What a hook does once it has edited the mutation. */
    method RunHook(mut: Mutator, m: nat) returns (out: Outcome)
      requires Populated() && NoNil(bulk) && Fits(bulk, State()) && Level(mut) < |bulk.hooks| && m < |store|
      requires mut.Wrapped? && mut.hook.Hook?
      modifies this`store, this`current, this`nodes, this`specs, this`batches, this`trace
      ensures var w, h := old(State()), mut.hook;
              match h.decide(w.store[m].fields)
              case Stop(o) => State() == w && out == o
              case Forward =>
                var p := Attempts(bulk, mut.inner, m, w, h.retries);
                State() == p.0 && out == h.after(p.1)
              case Replace(f) =>
                var p := Attempts(bulk, mut.inner, |w.store|, w.(store := w.store + [Mutation(f, false, None)]),
                                  h.retries);
                State() == p.0 && out == h.after(p.1)
      decreases |bulk.hooks| - Level(mut), Size(mut), 0, 1
    {
      match mut.hook.decide(store[m].fields) {
        case Stop(o) => out := o;
        case Forward =>
          out := Attempt(mut.inner, m, mut.hook.retries);
          out := mut.hook.after(out);
        case Replace(f) =>
          store := store + [Mutation(f, false, None)];
          out := Attempt(mut.inner, |store| - 1, mut.hook.retries);
          out := mut.hook.after(out);
      }
    }

    method Attempt(mut: Mutator, m: nat, retries: nat) returns (out: Outcome)
      requires Populated() && NoNil(bulk) && Fits(bulk, State()) && Level(mut) < |bulk.hooks| && m < |store|
      modifies this`store, this`current, this`nodes, this`specs, this`batches, this`trace
      ensures (State(), out) == Attempts(bulk, mut, m, old(State()), retries)
      decreases |bulk.hooks| - Level(mut), Size(mut), retries + 1, 0
    {
      out := Mutate(mut, m);
      if out.Failed? && retries > 0 {
        out := Attempt(mut, m, retries - 1);
      }
    }

    /** Fills in the defaults and builds the mutators, position by position; a nil hook panics. */
    method Prepare() returns (ok: bool)
      requires Fits(bulk, State().(nodes := seq(|bulk.hooks|, _ => None), specs := seq(|bulk.hooks|, _ => None)))
      modifies this
      ensures ok <==> NoNil(bulk)
      ensures batches == old(batches) && trace == old(trace)
      ensures ok ==> Populated() && State() == Started(bulk, old(State()), runtime)
    {
      nodes, specs, mutators := seq(|bulk.hooks|, _ => None), seq(|bulk.hooks|, _ => None), [];
      for i := 0 to |bulk.hooks|
        invariant current == old(current) && batches == old(batches) && trace == old(trace)
        invariant nodes == seq(|bulk.hooks|, _ => None) && specs == seq(|bulk.hooks|, _ => None)
        invariant |mutators| == i && forall k :: 0 <= k < i ==> mutators[k] == MutatorOf(bulk, k)
        invariant |store| == |old(store)| && store == Defaulted(bulk, old(store), current, i, runtime)
        invariant forall k, j :: 0 <= k < i && 0 <= j < |bulk.hooks[k]| ==> bulk.hooks[k][j] != NilHook
      {
        var m := current[bulk.builders[i]];
        store := store[m := store[m].(fields := Defaults(store[m].fields, runtime).0)];
        var mut, wrapped := Wrap(i);
        if !wrapped {
          return false;
        }
        mutators := mutators + [mut];
      }
      return true;
    }

    /** Creates the accounts. A nil hook panics while the mutators are built, before any of them runs. */
    method Save() returns (r: Saved)
      requires Proper(bulk) && forall k :: 0 <= k < |bulk.builders| ==> bulk.builders[k] < |current|
      requires forall x :: 0 <= x < |current| ==> current[x] < |store|
      modifies this
      ensures err.Some? ==> r == NotSaved(err.value) && State() == old(State())
      ensures err.None? && !NoNil(bulk) ==> r == Panicked && batches == old(batches) && trace == old(trace)
      ensures err.None? && NoNil(bulk) && |bulk.hooks| == 0 ==>
                r == Saved([]) && State() == Started(bulk, old(State()), runtime)
      ensures err.None? && NoNil(bulk) && |bulk.hooks| > 0 ==>
                var w := Started(bulk, old(State()), runtime);
                && Fits(bulk, w)
                && (State(), r) == var p := Exec(bulk, MutatorOf(bulk, 0), Mine(bulk, w, 0), w);
                                   (p.0, if p.1.Done? then Saved(p.0.nodes) else NotSaved(p.1.e))
    {
      if err.Some? {
        return NotSaved(err.value);
      }
      var ok := Prepare();
      if !ok {
        return Panicked;
      }
      if |mutators| > 0 {
        var out := Mutate(mutators[0], current[bulk.builders[0]]);
        if out.Failed? {
          return NotSaved(out.e);
        }
      }
      return Saved(nodes);
    }

    /** Wraps the core of position i in its hooks, the last hook first; calling a nil hook panics. */
    method Wrap(i: nat) returns (mut: Mutator, ok: bool)
      requires i < |bulk.hooks|
      ensures ok <==> NilHook !in bulk.hooks[i]
      ensures ok ==> mut == MutatorOf(bulk, i)
    {
      mut := Core(i);
      var j := |bulk.hooks[i]|;
      while j > 0
        invariant 0 <= j <= |bulk.hooks[i]|
        invariant mut == WrapFrom(bulk.hooks[i], i, j)
        invariant NilHook !in bulk.hooks[i][j..]
      {
        j := j - 1;
        if bulk.hooks[i][j] == NilHook {
          return mut, false;
        }
        assert bulk.hooks[i][j..] == [bulk.hooks[i][j]] + bulk.hooks[i][j + 1..];
        mut := Wrapped(bulk.hooks[i][j], i, j, mut);
      }
      assert bulk.hooks[i][0..] == bulk.hooks[i];
      return mut, true;
    }
  }
}
