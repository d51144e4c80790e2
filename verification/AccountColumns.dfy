/** The columns of the accounts table, and how a database row travels through them into an entity. */
module AccountColumns {
  import opened Wrappers
  import opened Sequences

  /** The 29 columns of the table; Other is any name that is not one of them. */
  datatype Column =
    | ID | CreatedAt | UpdatedAt | DeletedAt | Name | Notes | Platform | Type | Credentials | Extra
    | ProxyID | Concurrency | LoadFactor | Priority | RateMultiplier | Status | ErrorMessage
    | LastUsedAt | ExpiresAt | AutoPauseOnExpired | Schedulable | RateLimitedAt | RateLimitResetAt
    | OverloadUntil | TempUnschedulableUntil | TempUnschedulableReason
    | SessionWindowStart | SessionWindowEnd | SessionWindowStatus
    | Other(name: string)

  function AllColumns(): seq<Column> {
    [ID, CreatedAt, UpdatedAt, DeletedAt, Name, Notes, Platform, Type, Credentials, Extra,
     ProxyID, Concurrency, LoadFactor, Priority, RateMultiplier, Status, ErrorMessage,
     LastUsedAt, ExpiresAt, AutoPauseOnExpired, Schedulable, RateLimitedAt, RateLimitResetAt,
     OverloadUntil, TempUnschedulableUntil, TempUnschedulableReason,
     SessionWindowStart, SessionWindowEnd, SessionWindowStatus]
  }

  /** The place of a column in the table. */
  ghost function Ordinal(c: Column): nat {
    match c
    case ID => 0
    case CreatedAt => 1
    case UpdatedAt => 2
    case DeletedAt => 3
    case Name => 4
    case Notes => 5
    case Platform => 6
    case Type => 7
    case Credentials => 8
    case Extra => 9
    case ProxyID => 10
    case Concurrency => 11
    case LoadFactor => 12
    case Priority => 13
    case RateMultiplier => 14
    case Status => 15
    case ErrorMessage => 16
    case LastUsedAt => 17
    case ExpiresAt => 18
    case AutoPauseOnExpired => 19
    case Schedulable => 20
    case RateLimitedAt => 21
    case RateLimitResetAt => 22
    case OverloadUntil => 23
    case TempUnschedulableUntil => 24
    case TempUnschedulableReason => 25
    case SessionWindowStart => 26
    case SessionWindowEnd => 27
    case SessionWindowStatus => 28
    case Other(_) => 29
  }

  lemma ColumnPlace(c: Column)
    requires !c.Other?
    ensures Ordinal(c) < |AllColumns()| && AllColumns()[Ordinal(c)] == c
  {
  }

  lemma PlaceLow(i: nat)
    requires i < 10
    ensures Ordinal(AllColumns()[i]) == i
  {
  }

  lemma PlaceMiddle(i: nat)
    requires 10 <= i < 20
    ensures Ordinal(AllColumns()[i]) == i
  {
  }

  lemma PlaceHigh(i: nat)
    requires 20 <= i < |AllColumns()|
    ensures Ordinal(AllColumns()[i]) == i
  {
  }

  /** The table's column list holds every column exactly once, and no other name. */
  lemma AllColumnsMeaning()
    ensures forall c :: c in AllColumns() <==> !c.Other?
    ensures NoDup(AllColumns())
  {
    var cs := AllColumns();
    forall i | 0 <= i < |cs|
      ensures Ordinal(cs[i]) == i
    {
      if i < 10 {
        PlaceLow(i);
      } else if i < 20 {
        PlaceMiddle(i);
      } else {
        PlaceHigh(i);
      }
    }
    forall c: Column | !c.Other?
      ensures c in cs
    {
      ColumnPlace(c);
    }
  }

  /** The type of the scan target behind a holder. */
  datatype Kind = BytesKind | BoolKind | FloatKind | IntKind | StringKind | TimeKind | UnknownKind

  /** A scan target: its type and, once a row has been read, the value or NULL.
      Payloads are integers; for the integer columns they are the value itself. */
  datatype Holder = Holder(kind: Kind, value: Option<int>)

  /** A row of the table. */
  type Row = Column -> Option<int>

  /** The scan target the entity asks for, column by column. */
  function ScanKind(c: Column): Kind {
    match c
    case Credentials | Extra => BytesKind
    case AutoPauseOnExpired | Schedulable => BoolKind
    case RateMultiplier => FloatKind
    case ID | ProxyID | Concurrency | LoadFactor | Priority => IntKind
    case Name | Notes | Platform | Type | Status | ErrorMessage | TempUnschedulableReason
         | SessionWindowStatus => StringKind
    case CreatedAt | UpdatedAt | DeletedAt | LastUsedAt | ExpiresAt | RateLimitedAt | RateLimitResetAt
         | OverloadUntil | TempUnschedulableUntil | SessionWindowStart | SessionWindowEnd => TimeKind
    case Other(_) => UnknownKind
  }

  /** The types of the scan targets. */
  lemma ScanTypes(c: Column)
    ensures ScanKind(c) == BytesKind <==> c in {Credentials, Extra}
    ensures ScanKind(c) == BoolKind <==> c in {AutoPauseOnExpired, Schedulable}
    ensures ScanKind(c) == FloatKind <==> c == RateMultiplier
    ensures ScanKind(c) == IntKind <==> c in {ID, ProxyID, Concurrency, LoadFactor, Priority}
    ensures ScanKind(c) == StringKind <==>
              c in {Name, Notes, Platform, Type, Status, ErrorMessage, TempUnschedulableReason, SessionWindowStatus}
    ensures ScanKind(c) == UnknownKind <==> c.Other?
  {
  }

  /** Whether assigning accepts a scan target of kind k for column c (anything is accepted for an unknown column). */
  predicate Assignable(c: Column, k: Kind) {
    match c
    case ID => k == IntKind
    case CreatedAt => k == TimeKind
    case UpdatedAt => k == TimeKind
    case DeletedAt => k == TimeKind
    case Name => k == StringKind
    case Notes => k == StringKind
    case Platform => k == StringKind
    case Type => k == StringKind
    case Credentials => k == BytesKind
    case Extra => k == BytesKind
    case ProxyID => k == IntKind
    case Concurrency => k == IntKind
    case LoadFactor => k == IntKind
    case Priority => k == IntKind
    case RateMultiplier => k == FloatKind
    case Status => k == StringKind
    case ErrorMessage => k == StringKind
    case LastUsedAt => k == TimeKind
    case ExpiresAt => k == TimeKind
    case AutoPauseOnExpired => k == BoolKind
    case Schedulable => k == BoolKind
    case RateLimitedAt => k == TimeKind
    case RateLimitResetAt => k == TimeKind
    case OverloadUntil => k == TimeKind
    case TempUnschedulableUntil => k == TimeKind
    case TempUnschedulableReason => k == StringKind
    case SessionWindowStart => k == TimeKind
    case SessionWindowEnd => k == TimeKind
    case SessionWindowStatus => k == StringKind
    case Other(_) => true
  }

  /** Whether a scanned value can be assigned: the payload of the two JSON columns must decode, which `json` decides.
      NULL is not decoded, and neither is an empty payload, which counts as NULL here. */
  predicate Decodable(c: Column, v: Option<int>, json: int -> bool) {
    (c.Credentials? || c.Extra?) && v.Some? ==> json(v.value)
  }

  /** Every selected value of a row can be assigned. */
  ghost predicate RowDecodable(columns: seq<Column>, row: Row, json: int -> bool) {
    forall c :: c in columns ==> Decodable(c, row(c), json)
  }

  /** The scan targets for a list of columns. */
  method ScanValues(columns: seq<Column>) returns (values: seq<Holder>)
    ensures values == Filled(columns, c => None)
  {
    values := [];
    for i := 0 to |columns|
      invariant |values| == i
      invariant forall j :: 0 <= j < i ==> values[j] == Holder(ScanKind(columns[j]), None)
    {
      values := values + [Holder(ScanKind(columns[i]), None)];
    }
  }

  /** The scan targets after the driver has read a row into them. */
  function Filled(columns: seq<Column>, row: Row): (values: seq<Holder>)
    ensures |values| == |columns|
    ensures forall i :: 0 <= i < |columns| ==> values[i] == Holder(ScanKind(columns[i]), row(columns[i]))
  {
    seq(|columns|, i requires 0 <= i < |columns| => Holder(ScanKind(columns[i]), row(columns[i])))
  }

  /** The scalar part of an account: its two keys, its other columns that are not NULL, and extra selected values. */
  datatype Record = Record(id: int, proxyID: Option<int>, fields: map<Column, int>, selected: map<Column, Option<int>>)

  const EMPTY := Record(0, None, map[], map[])

  /** What assigning one scanned value does to the record: a NULL leaves the record alone, except that a NULL id reads
      0. */
  function AssignOne(c: Column, v: Holder, r: Record): Record {
    if c.ID? then r.(id := if v.value.Some? then v.value.value else 0)
    else if c.Other? then r.(selected := r.selected[c := v.value])
    else if v.value.None? then r
    else if c.ProxyID? then r.(proxyID := v.value)
    else r.(fields := r.fields[c := v.value.value])
  }

  /** What assigning a list of scanned values does to the record. */
  function Assigned(columns: seq<Column>, values: seq<Holder>, r: Record): Record
    requires |columns| <= |values|
  {
    if columns == [] then r
    else
      var n := |columns| - 1;
      AssignOne(columns[n], values[n], Assigned(columns[..n], values, r))
  }

  lemma AssignedStep(columns: seq<Column>, values: seq<Holder>, r: Record, i: nat)
    requires i < |columns| <= |values|
    ensures Assigned(columns[..i + 1], values, r) == AssignOne(columns[i], values[i], Assigned(columns[..i], values, r))
  {
    assert columns[..i + 1][..i] == columns[..i];
  }

  /** r holds the keys, the non-NULL fields and the extra selected values of a row, restricted to some columns. */
  ghost predicate Decodes(columns: seq<Column>, row: Row, r: Record) {
    && r.id == (if ID in columns && row(ID).Some? then row(ID).value else 0)
    && r.proxyID == (if ProxyID in columns then row(ProxyID) else None)
    && (forall c :: c in r.fields <==> c in columns && row(c).Some? && !c.ID? && !c.ProxyID? && !c.Other?)
    && (forall c :: c in r.fields ==> r.fields[c] == row(c).value)
    && (forall c :: c in r.selected <==> c in columns && c.Other?)
    && (forall c :: c in r.selected ==> r.selected[c] == row(c))
  }

  lemma AssignOneDecodes(columns: seq<Column>, c: Column, v: Holder, row: Row, r: Record)
    requires Decodes(columns, row, r) && v.value == row(c)
    ensures Decodes(columns + [c], row, AssignOne(c, v, r))
  {
    var s := AssignOne(c, v, r);
    forall d
      ensures d in s.fields <==> d in columns + [c] && row(d).Some? && !d.ID? && !d.ProxyID? && !d.Other?
    {
      assert d in s.fields <==> d in r.fields || (d == c && row(c).Some? && !c.ID? && !c.ProxyID? && !c.Other?);
    }
    assert forall d :: d in s.selected <==> d in r.selected || (d == c && c.Other?);
  }

  /** Assigning the scanned values of one row decodes that row, whatever the order and repetition of the columns. */
  lemma {:induction false} RowDecodes(columns: seq<Column>, values: seq<Holder>, row: Row)
    requires |columns| <= |values|
    requires forall i :: 0 <= i < |columns| ==> values[i].value == row(columns[i])
    ensures Decodes(columns, row, Assigned(columns, values, EMPTY))
  {
    if columns != [] {
      var n := |columns| - 1;
      RowDecodes(columns[..n], values, row);
      AssignOneDecodes(columns[..n], columns[n], values[n], row, Assigned(columns[..n], values, EMPTY));
      assert columns == columns[..n] + [columns[n]];
    }
  }

  /** Scanning asks for exactly the types that assigning expects: the "unexpected type" errors cannot occur. */
  lemma ScanThenAssign(columns: seq<Column>, row: Row)
    ensures forall i :: 0 <= i < |columns| ==> Assignable(columns[i], Filled(columns, row)[i].kind)
  {
    forall i | 0 <= i < |columns|
      ensures Assignable(columns[i], Filled(columns, row)[i].kind)
    {
      assert Filled(columns, row)[i].kind == ScanKind(columns[i]);
    }
  }

  /** The column list a query selects: everything, or the id, the other requested fields, and the proxy key when
      the proxy edge is loaded. */
  function NodeColumns(fields: seq<Column>, withProxy: bool): seq<Column> {
    if fields == [] then AllColumns()
    else
      var columns := [ID] + WithoutID(fields);
      if withProxy then AddColumnOnce(columns, ProxyID) else columns
  }

  function WithoutID(fields: seq<Column>): seq<Column> {
    if fields == [] then []
    else
      var n := |fields| - 1;
      if fields[n].ID? then WithoutID(fields[..n]) else WithoutID(fields[..n]) + [fields[n]]
  }

  function AddColumnOnce(columns: seq<Column>, c: Column): seq<Column> {
    if c in columns then columns else columns + [c]
  }

  lemma {:induction false} WithoutIDMeaning(fields: seq<Column>)
    ensures forall c :: c in WithoutID(fields) <==> c in fields && !c.ID?
  {
    if fields != [] {
      var n := |fields| - 1;
      WithoutIDMeaning(fields[..n]);
      assert fields == fields[..n] + [fields[n]];
    }
  }

  /** Leaving out the id keeps the other fields, in order and as often as they were requested. */
  lemma {:induction false} WithoutIDOrder(fields: seq<Column>) returns (positions: seq<nat>)
    ensures Picked(WithoutID(fields), fields, positions)
    ensures forall i :: 0 <= i < |fields| ==> (i in positions <==> !fields[i].ID?)
  {
    positions := [];
    if fields != [] {
      var n := |fields| - 1;
      positions := WithoutIDOrder(fields[..n]);
      positions := PickedStep(WithoutID(fields[..n]), fields, positions, !fields[n].ID?);
    }
  }

  /** The id comes first and nowhere else, every requested field is there, the proxy key is there when its edge
      is loaded, and nothing else is. */
  lemma NodeColumnsMeaning(fields: seq<Column>, withProxy: bool)
    ensures var cs := NodeColumns(fields, withProxy);
            && |cs| > 0 && cs[0] == ID && ID in cs
            && (forall i :: 0 < i < |cs| ==> cs[i] != ID)
            && (forall c :: c in fields && fields != [] ==> c in cs)
            && (withProxy ==> ProxyID in cs)
            && (fields != [] ==> forall c :: c in cs ==> c == ID || c in fields || (withProxy && c == ProxyID))
            && (fields == [] ==> NoDup(cs) && forall c :: c in cs <==> !c.Other?)
  {
    WithoutIDMeaning(fields);
    if fields == [] {
      AllColumnsMeaning();
    } else {
      var base := [ID] + WithoutID(fields);
      var cs := NodeColumns(fields, withProxy);
      assert base <= cs;
      forall i | 0 < i < |cs|
        ensures cs[i] != ID
      {
        if i < |base| {
          assert cs[i] == WithoutID(fields)[i - 1];
          assert cs[i] in WithoutID(fields);
        }
      }
      forall c | c in fields
        ensures c in cs
      {
        if c.ID? {
          assert cs[0] == c;
        } else {
          assert c in WithoutID(fields) && c in base;
        }
      }
    }
  }

  lemma KeysDecode(columns: seq<Column>, row: Row)
    ensures var r := Assigned(columns, Filled(columns, row), EMPTY);
            && (ID in columns ==> r.id == (if row(ID).Some? then row(ID).value else 0))
            && (ProxyID in columns ==> r.proxyID == row(ProxyID))
  {
    RowDecodes(columns, Filled(columns, row), row);
  }

  /** Narrowing the selected columns never loses a key the edge loaders read: the decoded id is the row's id, and
      with the proxy edge requested so is the decoded proxy key, exactly as without narrowing. */
  lemma NarrowingKeepsKeys(fields: seq<Column>, withProxy: bool, row: Row)
    ensures var narrow := NodeColumns(fields, withProxy);
            var r := Assigned(narrow, Filled(narrow, row), EMPTY);
            var full := Assigned(AllColumns(), Filled(AllColumns(), row), EMPTY);
            && r.id == full.id == (if row(ID).Some? then row(ID).value else 0)
            && full.proxyID == row(ProxyID)
            && (withProxy ==> r.proxyID == full.proxyID)
  {
    NodeColumnsMeaning(fields, withProxy);
    NodeColumnsMeaning([], true);
    KeysDecode(NodeColumns(fields, withProxy), row);
    KeysDecode(AllColumns(), row);
  }
}
