/** What the eager loaders compute, stated on the answers of the edge queries: every edge is a plain join. */
module EdgeSpecs {
  import opened Wrappers
  import opened Sequences
  import opened Entities

  /** What a query can return instead of its nodes; a nil dereference is a panic. */
  datatype Error = Database(message: string) | InvalidField | Undecodable | UnexpectedNode(id: int) | NilDereference

  /** How a loader ends: loaded; an error of the edge query; a neighbour nobody asked for; or a nil owner, on which
      the assignment panics. */
  datatype Outcome = Loaded | Failed(e: Error) | Unexpected(id: int) | NilOwner {
    function AsError(): Error
      requires !Loaded?
    {
      match this
      case Failed(e) => e
      case Unexpected(id) => UnexpectedNode(id)
      case NilOwner => NilDereference
    }
  }

  /** The error a loader hands to its query, if any. */
  function ErrorOf(o: Outcome): Option<Error> {
    if o.Loaded? then None else Some(o.AsError())
  }

  // ---------- accounts by id ----------

  ghost function IDs(nodes: seq<Account>): seq<int>
    reads nodes`id
  {
    if nodes == [] then [] else IDs(nodes[..|nodes| - 1]) + [nodes[|nodes| - 1].id]
  }

  /** The map every loader builds by overwriting: a later account replaces an earlier one with the same id. */
  ghost function ByID(nodes: seq<Account>): map<int, Account>
    reads nodes`id
  {
    if nodes == [] then map[]
    else
      var last := nodes[|nodes| - 1];
      ByID(nodes[..|nodes| - 1])[last.id := last]
  }

  /** The account that receives the neighbours of its id. */
  ghost predicate Owns(byID: map<int, Account>, a: Account)
    reads a`id
  {
    a.id in byID && byID[a.id] == a
  }

  ghost predicate Owner(nodes: seq<Account>, a: Account)
    reads nodes`id, a`id
  {
    Owns(ByID(nodes), a)
  }

  lemma {:induction false} IDsMeaning(nodes: seq<Account>)
    ensures |IDs(nodes)| == |nodes|
    ensures forall i :: 0 <= i < |nodes| ==> IDs(nodes)[i] == nodes[i].id
  {
    if nodes != [] {
      IDsMeaning(nodes[..|nodes| - 1]);
    }
  }

  lemma {:induction false} ByIDMeaning(nodes: seq<Account>)
    ensures forall id :: id in ByID(nodes) <==> id in IDs(nodes)
    ensures forall id :: id in ByID(nodes) ==> ByID(nodes)[id] in nodes && ByID(nodes)[id].id == id
    ensures forall i :: 0 <= i < |nodes| ==> nodes[i].id in ByID(nodes)
    ensures forall i :: 0 <= i < |nodes| && (forall j :: i < j < |nodes| ==> nodes[j].id != nodes[i].id) ==>
              ByID(nodes)[nodes[i].id] == nodes[i]
  {
    IDsMeaning(nodes);
    if nodes != [] {
      var n := |nodes| - 1;
      ByIDMeaning(nodes[..n]);
      IDsMeaning(nodes[..n]);
      assert nodes == nodes[..n] + [nodes[n]];
      assert IDs(nodes) == IDs(nodes[..n]) + [nodes[n].id];
    }
  }

  lemma ByIDKeys(nodes: seq<Account>)
    ensures forall id :: id in ByID(nodes) <==> id in IDs(nodes)
    ensures forall id :: id in ByID(nodes) ==> ByID(nodes)[id] in nodes && ByID(nodes)[id].id == id
  {
    ByIDMeaning(nodes);
  }

  /** With pairwise distinct ids every account owns its own neighbours. */
  lemma DistinctIDsOwn(nodes: seq<Account>)
    requires NoDup(IDs(nodes))
    ensures forall a :: a in nodes ==> Owner(nodes, a)
  {
    IDsMeaning(nodes);
    ByIDMeaning(nodes);
    forall a | a in nodes
      ensures Owner(nodes, a)
    {
      var i :| 0 <= i < |nodes| && nodes[i] == a;
      forall j | i < j < |nodes|
        ensures nodes[j].id != nodes[i].id
      {
        assert IDs(nodes)[i] != IDs(nodes)[j];
      }
    }
  }

  // ---------- many to many: accounts and groups through the join table ----------

  /** A row of the many-to-many query: the join table's account column, then the group's columns. */
  datatype JoinRow = JoinRow(accountID: int, groupID: int, detail: int)

  ghost predicate Linked(rows: seq<JoinRow>, accountID: int, groupID: int) {
    exists r :: r in rows && r.accountID == accountID && r.groupID == groupID
  }

  ghost predicate Known(rows: seq<JoinRow>, groupID: int) {
    exists r :: r in rows && r.groupID == groupID
  }

  /** Some row gives the group to an account that was not asked about. */
  ghost predicate Orphaned(rows: seq<JoinRow>, ids: seq<int>, groupID: int) {
    exists r :: r in rows && r.groupID == groupID && r.accountID !in ids
  }

  /** The first row of each group, in stream order. */
  ghost function FirstRows(rows: seq<JoinRow>): seq<JoinRow> {
    if rows == [] then []
    else
      var n := |rows| - 1;
      if Known(rows[..n], rows[n].groupID) then FirstRows(rows[..n]) else FirstRows(rows[..n]) + [rows[n]]
  }

  /** The groups scanned from a row stream: one object per group, from its first row. */
  ghost predicate Fetched(groups: seq<Group>, rows: seq<JoinRow>) {
    && |groups| == |FirstRows(rows)|
    && forall i :: 0 <= i < |groups| ==>
         groups[i].id == FirstRows(rows)[i].groupID && groups[i].detail == FirstRows(rows)[i].detail
  }

  /** The neighbours linked to an account, in neighbour order. */
  ghost function JoinedGroups(neighbors: seq<Group>, rows: seq<JoinRow>, accountID: int): seq<Group> {
    if neighbors == [] then []
    else
      var n := |neighbors| - 1;
      var r := JoinedGroups(neighbors[..n], rows, accountID);
      if Linked(rows, accountID, neighbors[n].id) then r + [neighbors[n]] else r
  }

  /** Distributing ends at the i-th neighbour: the ones before it have owners, all of them asked about; it has none, or
      one that nobody asked about. */
  ghost predicate StopsAt(neighbors: seq<Group>, rows: seq<JoinRow>, ids: seq<int>, i: nat, r: Outcome)
    requires i < |neighbors|
  {
    && (forall j :: 0 <= j < i ==> Known(rows, neighbors[j].id) && !Orphaned(rows, ids, neighbors[j].id))
    && if Known(rows, neighbors[i].id) then r == NilOwner && Orphaned(rows, ids, neighbors[i].id)
       else r == Unexpected(neighbors[i].id)
  }

  /** How distributing the neighbours ends: at the first one that is unknown or has an owner nobody asked about. */
  ghost function JoinOutcome(neighbors: seq<Group>, rows: seq<JoinRow>, ids: seq<int>): (r: Outcome)
    ensures !r.Failed?
    ensures r.Loaded? <==> forall n :: n in neighbors ==> Known(rows, n.id) && !Orphaned(rows, ids, n.id)
    ensures !r.Loaded? ==> exists i :: 0 <= i < |neighbors| && StopsAt(neighbors, rows, ids, i, r)
  {
    if neighbors == [] then Loaded
    else
      assert neighbors == [neighbors[0]] + neighbors[1..];
      assert !Known(rows, neighbors[0].id) ==> StopsAt(neighbors, rows, ids, 0, Unexpected(neighbors[0].id));
      assert Known(rows, neighbors[0].id) && Orphaned(rows, ids, neighbors[0].id) ==>
          StopsAt(neighbors, rows, ids, 0, NilOwner);
      assert Known(rows, neighbors[0].id) && !Orphaned(rows, ids, neighbors[0].id) ==>
          forall i, o :: 0 <= i < |neighbors| - 1 && StopsAt(neighbors[1..], rows, ids, i, o) ==>
            StopsAt(neighbors, rows, ids, i + 1, o);
      if !Known(rows, neighbors[0].id) then Unexpected(neighbors[0].id)
      else if Orphaned(rows, ids, neighbors[0].id) then NilOwner
      else JoinOutcome(neighbors[1..], rows, ids)
  }

  lemma {:induction false} FirstRowsCover(rows: seq<JoinRow>)
    ensures forall r :: r in FirstRows(rows) ==> r in rows
    ensures forall r :: r in rows ==> Known(FirstRows(rows), r.groupID)
  {
    if rows != [] {
      var n := |rows| - 1;
      FirstRowsCover(rows[..n]);
      assert rows == rows[..n] + [rows[n]];
      forall r | r in rows
        ensures Known(FirstRows(rows), r.groupID)
      {
        assert forall f :: f in FirstRows(rows[..n]) ==> f in FirstRows(rows);
        if r == rows[n] && Known(rows[..n], r.groupID) {
          var q :| q in rows[..n] && q.groupID == r.groupID;
          assert Known(FirstRows(rows[..n]), q.groupID);
        } else if r == rows[n] {
          assert r in FirstRows(rows);
        } else {
          assert Known(FirstRows(rows[..n]), r.groupID);
        }
      }
    }
  }

  /** If nothing is intercepted, distributing succeeds exactly if every row's account was asked about; otherwise it
      meets a nil owner. */
  lemma FetchedOutcome(fetched: seq<Group>, rows: seq<JoinRow>, ids: seq<int>)
    requires Fetched(fetched, rows)
    ensures JoinOutcome(fetched, rows, ids) == if forall r :: r in rows ==> r.accountID in ids then Loaded else NilOwner
  {
    var firsts := FirstRows(rows);
    FirstRowsCover(rows);
    forall n | n in fetched
      ensures Known(rows, n.id)
    {
      var i :| 0 <= i < |fetched| && fetched[i] == n;
      assert firsts[i] in firsts;
    }
    forall r | r in rows && r.accountID !in ids
      ensures exists n :: n in fetched && Orphaned(rows, ids, n.id)
    {
      var f :| f in firsts && f.groupID == r.groupID;
      var i :| 0 <= i < |firsts| && firsts[i] == f;
      assert fetched[i] in fetched && Orphaned(rows, ids, fetched[i].id);
    }
  }

  /** The groups edge of every account is the join; an account shadowed by a later one of the same id has none. */
  ghost predicate GroupsLoaded(nodes: seq<Account>, neighbors: seq<Group>, rows: seq<JoinRow>)
    reads nodes`id, nodes`groups
  {
    var byID := ByID(nodes);
    forall a :: a in nodes ==>
      a.groups == if Owns(byID, a) then JoinedGroups(neighbors, rows, a.id) else []
  }

  // ---------- one to many: neighbours that carry the account's id ----------

  ghost function LogsOf(neighbors: seq<UsageLog>, accountID: int): seq<UsageLog> {
    if neighbors == [] then []
    else
      var n := |neighbors| - 1;
      var r := LogsOf(neighbors[..n], accountID);
      if neighbors[n].accountID == accountID then r + [neighbors[n]] else r
  }

  ghost predicate UsageLogsLoaded(nodes: seq<Account>, neighbors: seq<UsageLog>)
    reads nodes`id, nodes`usageLogs
  {
    var byID := ByID(nodes);
    forall a :: a in nodes ==> a.usageLogs == if Owns(byID, a) then LogsOf(neighbors, a.id) else []
  }

  ghost function LinksOf(neighbors: seq<AccountGroup>, accountID: int): seq<AccountGroup> {
    if neighbors == [] then []
    else
      var n := |neighbors| - 1;
      var r := LinksOf(neighbors[..n], accountID);
      if neighbors[n].accountID == accountID then r + [neighbors[n]] else r
  }

  ghost predicate AccountGroupsLoaded(nodes: seq<Account>, neighbors: seq<AccountGroup>)
    reads nodes`id, nodes`accountGroups
  {
    var byID := ByID(nodes);
    forall a :: a in nodes ==> a.accountGroups == if Owns(byID, a) then LinksOf(neighbors, a.id) else []
  }

  /** How assigning neighbours by key ends: at the first key that nobody asked about. */
  function KeysOutcome(keys: seq<int>, ids: seq<int>): (r: Outcome)
    ensures r.Loaded? || r.Unexpected?
    ensures r.Loaded? <==> forall k :: k in keys ==> k in ids
    ensures r.Unexpected? ==> FirstNotIn(keys, ids, r.id)
  {
    if keys == [] then Loaded
    else if keys[0] !in ids then
      assert FirstNotIn(keys, ids, keys[0]) by {
        assert keys[..0] == [];
      }
      Unexpected(keys[0])
    else
      assert keys == [keys[0]] + keys[1..];
      var r := KeysOutcome(keys[1..], ids);
      assert r.Unexpected? ==> FirstNotIn(keys, ids, r.id) by {
        FirstNotInStep(keys, ids);
      }
      r
  }

  /** x is the first of the keys that is not among the ids. */
  ghost predicate FirstNotIn(keys: seq<int>, ids: seq<int>, x: int) {
    x !in ids && exists i :: 0 <= i < |keys| && keys[i] == x && forall k :: k in keys[..i] ==> k in ids
  }

  lemma FirstNotInStep(keys: seq<int>, ids: seq<int>)
    requires keys != [] && keys[0] in ids
    ensures forall x :: FirstNotIn(keys[1..], ids, x) ==> FirstNotIn(keys, ids, x)
  {
    forall x | FirstNotIn(keys[1..], ids, x)
      ensures FirstNotIn(keys, ids, x)
    {
      var i :| 0 <= i < |keys| - 1 && keys[1..][i] == x && forall k :: k in keys[1..][..i] ==> k in ids;
      assert keys[..i + 1] == [keys[0]] + keys[1..][..i];
      assert keys[i + 1] == x;
    }
  }

  // ---------- many to one: neighbours whose id the node carries ----------

  /** The last neighbour with an id; later neighbours overwrite earlier ones. */
  ghost function LastProxy(neighbors: seq<Proxy>, id: int): Proxy? {
    if neighbors == [] then null
    else
      var n := |neighbors| - 1;
      if neighbors[n].id == id then neighbors[n] else LastProxy(neighbors[..n], id)
  }

  ghost function LastGroup(neighbors: seq<Group>, id: int): Group? {
    if neighbors == [] then null
    else
      var n := |neighbors| - 1;
      if neighbors[n].id == id then neighbors[n] else LastGroup(neighbors[..n], id)
  }

  ghost function LastAccount(neighbors: seq<Account>, id: int): Account?
    reads neighbors`id
  {
    if neighbors == [] then null
    else
      var n := |neighbors| - 1;
      if neighbors[n].id == id then neighbors[n] else LastAccount(neighbors[..n], id)
  }
}
