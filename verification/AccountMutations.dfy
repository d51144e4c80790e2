/** Defaults and checks of an account mutation before it is saved. */
module AccountMutations {
  import opened Wrappers
  import opened AccountColumns

  /** The fields set on a mutation, with their values. */
  type Fields = map<Column, int>

  /** What the runtime package provides: default functions (None while uninitialized), default values, validators. */
  datatype Runtime = Runtime(createdAt: Option<int>, updatedAt: Option<int>, credentials: Option<int>,
                             extra: Option<int>, concurrency: int, priority: int, rateMultiplier: int, status: int,
                             autoPauseOnExpired: int, schedulable: int,
                             valid: (Column, int) -> bool)

  /** The fields that have a default, in filling order, with the default or None while it is uninitialized. */
  function DefaultTable(rt: Runtime): seq<(Column, Option<int>)> {
    [(CreatedAt, rt.createdAt), (UpdatedAt, rt.updatedAt), (Credentials, rt.credentials), (Extra, rt.extra),
     (Concurrency, Some(rt.concurrency)), (Priority, Some(rt.priority)), (RateMultiplier, Some(rt.rateMultiplier)),
     (Status, Some(rt.status)), (AutoPauseOnExpired, Some(rt.autoPauseOnExpired)), (Schedulable, Some(rt.schedulable))]
  }

  /** Fills unset fields in table order; the first unset field without a default ends this, and is named. */
  function Fill(f: Fields, table: seq<(Column, Option<int>)>): (Fields, Option<Column>)
    decreases |table|
  {
    if table == [] then (f, None)
    else
      var (c, d) := table[0];
      if c in f then Fill(f, table[1..])
      else if d.None? then (f, Some(c))
      else Fill(f[c := d.value], table[1..])
  }

  function Defaults(f: Fields, rt: Runtime): (Fields, Option<Column>) {
    Fill(f, DefaultTable(rt))
  }

  /** The table gives field c the default d. */
  ghost predicate HasDefault(table: seq<(Column, Option<int>)>, c: Column, d: Option<int>) {
    exists i :: 0 <= i < |table| && table[i] == (c, d)
  }

  /** Filling keeps what is set, and sets nothing but fields of the table, to their defaults. It either sets every field
      of the table, or stops at one that stays unset and has no default. */
  lemma {:induction false} FillMeaning(f: Fields, table: seq<(Column, Option<int>)>)
    ensures var (g, e) := Fill(f, table);
            && (forall c :: c in f ==> c in g && g[c] == f[c])
            && (forall c :: c in g && c !in f ==> HasDefault(table, c, Some(g[c])))
            && (e.None? ==> forall i :: 0 <= i < |table| ==> table[i].0 in g)
            && (e.Some? ==> e.value !in g && HasDefault(table, e.value, None))
    decreases |table|
  {
    if table != [] {
      var (c, d) := table[0];
      var (g, e) := Fill(f, table);
      assert HasDefault(table, c, d) by {
        assert table[0] == (c, d);
      }
      if c in f || d.Some? {
        var f' := if c in f then f else f[c := d.value];
        FillMeaning(f', table[1..]);
        assert c in g;
        forall x, v | HasDefault(table[1..], x, v)
          ensures HasDefault(table, x, v)
        {
          var i :| 0 <= i < |table| - 1 && table[1..][i] == (x, v);
          assert table[i + 1] == (x, v);
        }
      }
    }
  }

  /** Filling again changes nothing. */
  lemma {:induction false} FillTwice(f: Fields, table: seq<(Column, Option<int>)>)
    ensures var g := Fill(f, table).0;
            Fill(g, table).0 == g
    decreases |table|
  {
    if table != [] {
      var (c, d) := table[0];
      if c in f {
        FillMeaning(f, table[1..]);
        FillTwice(f, table[1..]);
      } else if d.Some? {
        FillMeaning(f[c := d.value], table[1..]);
        FillTwice(f[c := d.value], table[1..]);
      }
    }
  }

  /** The first field, in checking order, that is missing or rejected by its validator. */
  function Check(f: Fields, valid: (Column, int) -> bool): Option<Column> {
    if CreatedAt !in f then Some(CreatedAt)
    else if UpdatedAt !in f then Some(UpdatedAt)
    else if Name !in f || !valid(Name, f[Name]) then Some(Name)
    else if Platform !in f || !valid(Platform, f[Platform]) then Some(Platform)
    else if Type !in f || !valid(Type, f[Type]) then Some(Type)
    else if Credentials !in f then Some(Credentials)
    else if Extra !in f then Some(Extra)
    else if Concurrency !in f then Some(Concurrency)
    else if Priority !in f then Some(Priority)
    else if RateMultiplier !in f then Some(RateMultiplier)
    else if Status !in f || !valid(Status, f[Status]) then Some(Status)
    else if AutoPauseOnExpired !in f then Some(AutoPauseOnExpired)
    else if Schedulable !in f then Some(Schedulable)
    else if SessionWindowStatus in f && !valid(SessionWindowStatus, f[SessionWindowStatus])
      then Some(SessionWindowStatus)
    else None
  }

  /** A mutation passes exactly when every required field is set and every validated field that is set is valid. */
  lemma CheckMeaning(f: Fields, valid: (Column, int) -> bool)
    ensures Check(f, valid).None? <==>
              && {CreatedAt, UpdatedAt, Name, Platform, Type, Credentials, Extra, Concurrency, Priority,
                  RateMultiplier, Status, AutoPauseOnExpired, Schedulable} <= f.Keys
              && forall c :: c in {Name, Platform, Type, Status, SessionWindowStatus} && c in f ==> valid(c, f[c])
  {
  }

  /** The place of a column in the checks. */
  ghost function CheckPlace(c: Column): nat {
    match c
    case CreatedAt => 0
    case UpdatedAt => 1
    case Name => 2
    case Platform => 3
    case Type => 4
    case Credentials => 5
    case Extra => 6
    case Concurrency => 7
    case Priority => 8
    case RateMultiplier => 9
    case Status => 10
    case AutoPauseOnExpired => 11
    case Schedulable => 12
    case _ => 13
  }

  ghost predicate Missing(f: Fields, c: Column) {
    c !in f && CheckPlace(c) < 13
  }

  ghost predicate Rejected(f: Fields, valid: (Column, int) -> bool, c: Column) {
    c in f && c in {Name, Platform, Type, Status, SessionWindowStatus} && !valid(c, f[c])
  }

  /** The field that is named is missing or rejected, and no field that is checked before it is. */
  lemma CheckNamesFirst(f: Fields, valid: (Column, int) -> bool)
    requires Check(f, valid).Some?
    ensures var bad := Check(f, valid).value;
            && (Missing(f, bad) || Rejected(f, valid, bad))
            && forall c :: CheckPlace(c) < CheckPlace(bad) ==> !Missing(f, c) && !Rejected(f, valid, c)
  {
  }

  /** If filling stops, then at the first entry whose field is not set and has no default; nothing but the entries
      before it is filled. */
  lemma {:induction false} FillStops(f: Fields, table: seq<(Column, Option<int>)>) returns (i: nat)
    requires Fill(f, table).1.Some?
    requires forall i, j :: 0 <= i < j < |table| ==> table[i].0 != table[j].0
    ensures i < |table| && table[i] == (Fill(f, table).1.value, None) && table[i].0 !in f
    ensures forall j :: 0 <= j < i ==> table[j].0 in Fill(f, table).0 && (table[j].0 in f || table[j].1.Some?)
    ensures forall c :: c in Fill(f, table).0 && c !in f ==> exists j :: 0 <= j < i && table[j].0 == c
    decreases |table|
  {
    var (c, d) := table[0];
    i := 0;
    if c in f || d.Some? {
      var f' := if c in f then f else f[c := d.value];
      FillMeaning(f', table[1..]);
      i := FillStops(f', table[1..]);
      i := i + 1;
      forall j | 0 < j < i
        ensures table[j].0 in Fill(f, table).0 && (table[j].0 in f || table[j].1.Some?)
      {
        assert table[1..][j - 1] == table[j];
      }
      forall x | x in Fill(f, table).0 && x !in f && x != c
        ensures exists j :: 0 <= j < i && table[j].0 == x
      {
        var j :| 0 <= j < i - 1 && table[1..][j].0 == x;
        assert table[j + 1].0 == x;
      }
    }
  }

  /** If filling does not stop, every field that was not set had a default. */
  lemma {:induction false} FillComplete(f: Fields, table: seq<(Column, Option<int>)>)
    requires Fill(f, table).1.None?
    requires forall i, j :: 0 <= i < j < |table| ==> table[i].0 != table[j].0
    ensures forall i :: 0 <= i < |table| ==> table[i].0 in f || table[i].1.Some?
    decreases |table|
  {
    if table != [] {
      var (c, d) := table[0];
      FillComplete(if c in f then f else f[c := d.value], table[1..]);
      forall i | 0 < i < |table|
        ensures table[i].0 in f || table[i].1.Some?
      {
        assert table[1..][i - 1] == table[i];
      }
    }
  }

  /** Which default a field has, field by field. */
  ghost predicate DefaultIs(rt: Runtime, c: Column, d: Option<int>) {
    match c
    case CreatedAt => d == rt.createdAt
    case UpdatedAt => d == rt.updatedAt
    case Credentials => d == rt.credentials
    case Extra => d == rt.extra
    case Concurrency => d == Some(rt.concurrency)
    case Priority => d == Some(rt.priority)
    case RateMultiplier => d == Some(rt.rateMultiplier)
    case Status => d == Some(rt.status)
    case AutoPauseOnExpired => d == Some(rt.autoPauseOnExpired)
    case Schedulable => d == Some(rt.schedulable)
    case _ => false
  }

  /** The place of a field among the defaults. */
  ghost function DefaultPlace(c: Column): nat {
    match c
    case CreatedAt => 0
    case UpdatedAt => 1
    case Credentials => 2
    case Extra => 3
    case Concurrency => 4
    case Priority => 5
    case RateMultiplier => 6
    case Status => 7
    case AutoPauseOnExpired => 8
    case Schedulable => 9
    case _ => 10
  }

  lemma TableEntry(rt: Runtime, i: nat)
    requires i < 10
    ensures var (c, d) := DefaultTable(rt)[i]; DefaultIs(rt, c, d) && DefaultPlace(c) == i
  {
  }

  /** What the defaults have set is a field with a default, and to that default. */
  ghost predicate SetToDefaults(f: Fields, rt: Runtime, g: Fields) {
    && (forall c :: c in f ==> c in g && g[c] == f[c])
    && (forall c :: c in g && c !in f ==> DefaultIs(rt, c, Some(g[c])))
  }

  lemma DefaultsSet(f: Fields, rt: Runtime)
    ensures SetToDefaults(f, rt, Defaults(f, rt).0)
  {
    var g := Defaults(f, rt).0;
    var table := DefaultTable(rt);
    FillMeaning(f, table);
    forall c | c in g && c !in f
      ensures DefaultIs(rt, c, Some(g[c]))
    {
      var i :| 0 <= i < |table| && table[i] == (c, Some(g[c]));
      TableEntry(rt, i);
    }
  }

  lemma FieldByField(f: Fields, rt: Runtime, g: Fields)
    requires SetToDefaults(f, rt, g)
    ensures CreatedAt !in f && CreatedAt in g ==> rt.createdAt == Some(g[CreatedAt])
    ensures UpdatedAt !in f && UpdatedAt in g ==> rt.updatedAt == Some(g[UpdatedAt])
    ensures Credentials !in f && Credentials in g ==> rt.credentials == Some(g[Credentials])
    ensures Extra !in f && Extra in g ==> rt.extra == Some(g[Extra])
    ensures Concurrency !in f && Concurrency in g ==> g[Concurrency] == rt.concurrency
    ensures Priority !in f && Priority in g ==> g[Priority] == rt.priority
    ensures RateMultiplier !in f && RateMultiplier in g ==> g[RateMultiplier] == rt.rateMultiplier
    ensures Status !in f && Status in g ==> g[Status] == rt.status
    ensures AutoPauseOnExpired !in f && AutoPauseOnExpired in g ==> g[AutoPauseOnExpired] == rt.autoPauseOnExpired
    ensures Schedulable !in f && Schedulable in g ==> g[Schedulable] == rt.schedulable
    ensures g.Keys <= f.Keys + {CreatedAt, UpdatedAt, Credentials, Extra, Concurrency, Priority, RateMultiplier, Status,
                                AutoPauseOnExpired, Schedulable}
  {
  }

  lemma TableDistinct(rt: Runtime)
    ensures forall i, j :: 0 <= i < j < |DefaultTable(rt)| ==> DefaultTable(rt)[i].0 != DefaultTable(rt)[j].0
  {
    forall i | 0 <= i < 10
      ensures DefaultPlace(DefaultTable(rt)[i].0) == i
    {
      TableEntry(rt, i);
    }
  }

  /** The default functions that are needed and not initialized. */
  ghost predicate Uninitialized(f: Fields, rt: Runtime, c: Column) {
    || (c == CreatedAt && c !in f && rt.createdAt.None?)
    || (c == UpdatedAt && c !in f && rt.updatedAt.None?)
    || (c == Credentials && c !in f && rt.credentials.None?)
    || (c == Extra && c !in f && rt.extra.None?)
  }

  lemma FilledEntry(f: Fields, rt: Runtime, c: Column)
    requires Defaults(f, rt).1.None? && DefaultPlace(c) < 10
    ensures c in Defaults(f, rt).0 && !Uninitialized(f, rt, c)
  {
    var table, i := DefaultTable(rt), DefaultPlace(c);
    TableDistinct(rt);
    FillMeaning(f, table);
    FillComplete(f, table);
    assert table[i].0 in Defaults(f, rt).0 && (table[i].0 in f || table[i].1.Some?);
    TableEntry(rt, i);
    SamePlace(c, table[i].0);
  }

  lemma AllFilled(f: Fields, rt: Runtime)
    requires Defaults(f, rt).1.None?
    ensures forall c :: DefaultPlace(c) < 10 ==> c in Defaults(f, rt).0 && !Uninitialized(f, rt, c)
  {
    forall c | DefaultPlace(c) < 10
      ensures c in Defaults(f, rt).0 && !Uninitialized(f, rt, c)
    {
      FilledEntry(f, rt, c);
    }
  }

  /** If filling the defaults fails, the field it names needs a default that is not initialized; no field before it
      does, and only fields before it are set. */
  lemma StoppedAt(f: Fields, rt: Runtime)
    requires Defaults(f, rt).1.Some?
    ensures var (g, e) := Defaults(f, rt);
            && Uninitialized(f, rt, e.value)
            && (forall c :: DefaultPlace(c) < DefaultPlace(e.value) ==> c in g && !Uninitialized(f, rt, c))
            && (forall c :: c in g && c !in f ==> DefaultPlace(c) < DefaultPlace(e.value))
  {
    var (g, e) := Defaults(f, rt);
    var table := DefaultTable(rt);
    TableDistinct(rt);
    var i := FillStops(f, table);
    TableEntry(rt, i);
    forall c | DefaultPlace(c) < i
      ensures c in g && !Uninitialized(f, rt, c)
    {
      var j := DefaultPlace(c);
      assert table[j].0 in g && (table[j].0 in f || table[j].1.Some?);
      TableEntry(rt, j);
      SamePlace(c, table[j].0);
    }
    forall c | c in g && c !in f
      ensures DefaultPlace(c) < i
    {
      var j :| 0 <= j < i && table[j].0 == c;
      TableEntry(rt, j);
    }
  }

  lemma SamePlace(c: Column, d: Column)
    requires DefaultPlace(c) == DefaultPlace(d) < 10
    ensures c == d
  {
  }

  lemma OnlyBefore(f: Fields, g: Fields, c: Column)
    requires c in {CreatedAt, UpdatedAt, Credentials, Extra}
    requires forall x :: x in f ==> x in g
    requires forall x :: DefaultPlace(x) < DefaultPlace(c) ==> x in g
    requires forall x :: x in g && x !in f ==> DefaultPlace(x) < DefaultPlace(c)
    ensures c == CreatedAt ==> g.Keys == f.Keys
    ensures c == UpdatedAt ==> g.Keys == f.Keys + {CreatedAt}
    ensures c == Credentials ==> g.Keys == f.Keys + {CreatedAt, UpdatedAt}
    ensures c == Extra ==> g.Keys == f.Keys + {CreatedAt, UpdatedAt, Credentials}
  {
    assert DefaultPlace(CreatedAt) == 0 && DefaultPlace(UpdatedAt) == 1;
    assert DefaultPlace(Credentials) == 2 && DefaultPlace(Extra) == 3;
  }

  /** After the defaults, what was set is unchanged, a field that was not set and is now holds its own default, and no
      other field is added. */
  lemma DefaultValues(f: Fields, rt: Runtime, g: Fields)
    requires g == Defaults(f, rt).0
    ensures forall c :: c in f ==> c in g && g[c] == f[c]
    ensures CreatedAt !in f && CreatedAt in g ==> rt.createdAt == Some(g[CreatedAt])
    ensures UpdatedAt !in f && UpdatedAt in g ==> rt.updatedAt == Some(g[UpdatedAt])
    ensures Credentials !in f && Credentials in g ==> rt.credentials == Some(g[Credentials])
    ensures Extra !in f && Extra in g ==> rt.extra == Some(g[Extra])
    ensures Concurrency !in f && Concurrency in g ==> g[Concurrency] == rt.concurrency
    ensures Priority !in f && Priority in g ==> g[Priority] == rt.priority
    ensures RateMultiplier !in f && RateMultiplier in g ==> g[RateMultiplier] == rt.rateMultiplier
    ensures Status !in f && Status in g ==> g[Status] == rt.status
    ensures AutoPauseOnExpired !in f && AutoPauseOnExpired in g ==> g[AutoPauseOnExpired] == rt.autoPauseOnExpired
    ensures Schedulable !in f && Schedulable in g ==> g[Schedulable] == rt.schedulable
    ensures g.Keys <= f.Keys + {CreatedAt, UpdatedAt, Credentials, Extra, Concurrency, Priority, RateMultiplier, Status,
                                AutoPauseOnExpired, Schedulable}
  {
    DefaultsSet(f, rt);
    FieldByField(f, rt, g);
  }

  lemma StoppedFirst(f: Fields, rt: Runtime, c: Column)
    requires Uninitialized(f, rt, c)
    requires forall x :: DefaultPlace(x) < DefaultPlace(c) ==> !Uninitialized(f, rt, x)
    ensures c == if CreatedAt !in f && rt.createdAt.None? then CreatedAt
                 else if UpdatedAt !in f && rt.updatedAt.None? then UpdatedAt
                 else if Credentials !in f && rt.credentials.None? then Credentials else Extra
  {
    assert DefaultPlace(CreatedAt) == 0 && DefaultPlace(UpdatedAt) == 1;
    assert DefaultPlace(Credentials) == 2 && DefaultPlace(Extra) == 3;
    assert Uninitialized(f, rt, CreatedAt) <==> CreatedAt !in f && rt.createdAt.None?;
    assert Uninitialized(f, rt, UpdatedAt) <==> UpdatedAt !in f && rt.updatedAt.None?;
    assert Uninitialized(f, rt, Credentials) <==> Credentials !in f && rt.credentials.None?;
  }

  lemma AllKeys(f: Fields, g: Fields)
    requires forall c :: c in f ==> c in g
    requires forall c :: DefaultPlace(c) < 10 ==> c in g
    requires forall c :: c in g && c !in f ==> DefaultPlace(c) < 10
    ensures g.Keys == f.Keys + {CreatedAt, UpdatedAt, Credentials, Extra, Concurrency, Priority, RateMultiplier, Status,
                                AutoPauseOnExpired, Schedulable}
  {
  }

  /** What follows for the four default functions from where filling stopped. */
  lemma StopInOrder(f: Fields, rt: Runtime, g: Fields, e: Option<Column>)
    requires SetToDefaults(f, rt, g)
    requires e.None? ==> forall c :: DefaultPlace(c) < 10 ==> c in g && !Uninitialized(f, rt, c)
    requires e.Some? ==>
               && Uninitialized(f, rt, e.value)
               && (forall c :: DefaultPlace(c) < DefaultPlace(e.value) ==> c in g && !Uninitialized(f, rt, c))
               && (forall c :: c in g && c !in f ==> DefaultPlace(c) < DefaultPlace(e.value))
    ensures if CreatedAt !in f && rt.createdAt.None? then
              e == Some(CreatedAt) && g.Keys == f.Keys
            else if UpdatedAt !in f && rt.updatedAt.None? then
              e == Some(UpdatedAt) && g.Keys == f.Keys + {CreatedAt}
            else if Credentials !in f && rt.credentials.None? then
              e == Some(Credentials) && g.Keys == f.Keys + {CreatedAt, UpdatedAt}
            else if Extra !in f && rt.extra.None? then
              e == Some(Extra) && g.Keys == f.Keys + {CreatedAt, UpdatedAt, Credentials}
            else
              e.None? && g.Keys == f.Keys + {CreatedAt, UpdatedAt, Credentials, Extra, Concurrency, Priority,
                                             RateMultiplier, Status, AutoPauseOnExpired, Schedulable}
  {
    if e.None? {
      assert DefaultPlace(CreatedAt) < 10 && DefaultPlace(UpdatedAt) < 10;
      assert DefaultPlace(Credentials) < 10 && DefaultPlace(Extra) < 10;
      AllKeys(f, g);
    } else {
      OnlyBefore(f, g, e.value);
      StoppedFirst(f, rt, e.value);
    }
  }

  /** Filling the defaults succeeds exactly if none of the four default functions is needed and not initialized; then
      all ten fields are set. Otherwise the first such field, in the order created, updated, credentials, extra, is
      named, and only the fields before it are set. */
  lemma DefaultsStop(f: Fields, rt: Runtime, g: Fields, e: Option<Column>)
    requires (g, e) == Defaults(f, rt)
    ensures if CreatedAt !in f && rt.createdAt.None? then
              e == Some(CreatedAt) && g.Keys == f.Keys
            else if UpdatedAt !in f && rt.updatedAt.None? then
              e == Some(UpdatedAt) && g.Keys == f.Keys + {CreatedAt}
            else if Credentials !in f && rt.credentials.None? then
              e == Some(Credentials) && g.Keys == f.Keys + {CreatedAt, UpdatedAt}
            else if Extra !in f && rt.extra.None? then
              e == Some(Extra) && g.Keys == f.Keys + {CreatedAt, UpdatedAt, Credentials}
            else
              e.None? && g.Keys == f.Keys + {CreatedAt, UpdatedAt, Credentials, Extra, Concurrency, Priority,
                                             RateMultiplier, Status, AutoPauseOnExpired, Schedulable}
  {
    DefaultsSet(f, rt);
    if e.None? {
      AllFilled(f, rt);
    } else {
      StoppedAt(f, rt);
    }
    StopInOrder(f, rt, g, e);
  }

  /** Bulk creation ignores an error of the defaults; this is harmless: the check that follows then fails too. With
      defaults in place only the caller's own fields can fail it. */
  lemma DefaultsThenCheck(f: Fields, rt: Runtime)
    ensures var (g, e) := Defaults(f, rt);
            && (forall c :: c in f ==> c in g && g[c] == f[c])
            && (e.Some? ==> Check(g, rt.valid).Some?)
            && (e.None? && Check(g, rt.valid).Some? ==>
                  Check(g, rt.valid).value in {Name, Platform, Type, Status, SessionWindowStatus})
  {
    var (g, e) := Defaults(f, rt);
    DefaultValues(f, rt, g);
    DefaultsStop(f, rt, g, e);
    CheckMeaning(g, rt.valid);
  }
}
