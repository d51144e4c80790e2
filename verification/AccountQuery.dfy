/** The eager loaders of the account query. Each builds a map over the nodes in one loop, asks the edge query, and
    writes the edges of the nodes in place. */
module AccountQueries {
  import opened Wrappers
  import opened Sequences
  import opened Entities
  import opened EdgeSpecs
  import opened KeyGroups
  import opened UsageLogQueries
  import opened AccountGroupQueries

  /** The answer to the many-to-many query: the rows it streams, and the error that ended the stream, if any. */
  datatype JoinAnswer = JoinAnswer(rows: seq<JoinRow>, error: Option<Error>)

  /** What a query hands to its caller. */
  type Groups = Result<seq<Group>, Error>

  /** The interceptors around a query: they run it and may turn what it returns, be it an error, into something else; or
      they answer on their own, without running it, as a cache does. */
  datatype Interception = Around(after: Groups -> Groups) | Instead(result: Groups)

  /** The groups edge query: its preparation, its answer to a list of account ids, and the interceptors around it. */
  datatype GroupQuery = GroupQuery(prepareError: Option<Error>, answer: seq<int> -> JoinAnswer,
                                   interception: Interception) {
    /** The rows that are scanned: those before an error count, and none do if the query is not run. */
    function Streamed(ids: seq<int>): seq<JoinRow> {
      if interception.Around? then answer(ids).rows else []
    }

    /** What the interceptors hand on, when `fetched` was scanned. */
    function Handed(ids: seq<int>, fetched: seq<Group>): Groups {
      match interception
      case Around(after) => after(if answer(ids).error.Some? then Err(answer(ids).error.value) else Ok(fetched))
      case Instead(result) => result
    }

    /** Nothing fails before the neighbours are distributed, and they are the groups that were scanned. */
    ghost predicate Plain(ids: seq<int>, fetched: seq<Group>) {
      && prepareError.None? && interception.Around?
      && answer(ids).error.None? && interception.after(Ok(fetched)) == Ok(fetched)
    }
  }

  ghost function Lookup(byID: map<int, Account>, id: int): Account? {
    if id in byID then byID[id] else null
  }

  ghost function OwnersOf(byID: map<int, Account>, rows: seq<JoinRow>, g: int): set<Account?> {
    set r | r in rows && r.groupID == g :: Lookup(byID, r.accountID)
  }

  /** nids maps each group of the rows to its set of owners. */
  ghost predicate OwnersRecorded(nids: map<int, set<Account?>>, byID: map<int, Account>, rows: seq<JoinRow>) {
    && (forall g :: g in nids <==> Known(rows, g))
    && (forall g :: g in nids ==> nids[g] == OwnersOf(byID, rows, g))
  }

  lemma OwnersRecordedStep(nids: map<int, set<Account?>>, byID: map<int, Account>, init: seq<JoinRow>, row: JoinRow)
    requires OwnersRecorded(nids, byID, init)
    ensures var owner := Lookup(byID, row.accountID);
            var g := row.groupID;
            OwnersRecorded(nids[g := if g in nids then nids[g] + {owner} else {owner}], byID, init + [row])
    ensures row.groupID in nids <==> Known(init, row.groupID)
  {
    var rows := init + [row];
    forall g
      ensures Known(rows, g) <==> Known(init, g) || g == row.groupID
      ensures OwnersOf(byID, rows, g) == OwnersOf(byID, init, g) + if g == row.groupID
                then {Lookup(byID, row.accountID)} else {}
    {
      assert row in rows;
      assert forall r :: r in rows <==> r in init || r == row;
    }
    if row.groupID !in nids {
      assert OwnersOf(byID, init, row.groupID) == {};
    }
  }

  /** Scans the joined rows: a group object for the first row of each group, an owner for every row. */
  method ScanJoinRows(byID: map<int, Account>, rows: seq<JoinRow>)
    returns (nids: map<int, set<Account?>>, fetched: seq<Group>)
    ensures OwnersRecorded(nids, byID, rows)
    ensures Fetched(fetched, rows)
    ensures forall g :: g in fetched ==> fresh(g)
  {
    nids, fetched := map[], [];
    for i := 0 to |rows|
      invariant OwnersRecorded(nids, byID, rows[..i])
      invariant Fetched(fetched, rows[..i])
      invariant forall g :: g in fetched ==> fresh(g)
    {
      var row := rows[i];
      var owner: Account? := if row.accountID in byID then byID[row.accountID] else null;
      assert rows[..i + 1] == rows[..i] + [row];
      assert rows[..i + 1][..i] == rows[..i];
      OwnersRecordedStep(nids, byID, rows[..i], row);
      if row.groupID !in nids {
        nids := nids[row.groupID := {owner}];
        var g := new Group(row.groupID, row.detail);
        fetched := fetched + [g];
      } else {
        nids := nids[row.groupID := nids[row.groupID] + {owner}];
      }
    }
    assert rows[..|rows|] == rows;
  }

  /** The neighbours owned by an account according to the owner sets. */
  ghost function GroupsFor(neighbors: seq<Group>, nids: map<int, set<Account?>>, a: Account): seq<Group> {
    if neighbors == [] then []
    else
      var n := |neighbors| - 1;
      var r := GroupsFor(neighbors[..n], nids, a);
      if neighbors[n].id in nids && a in nids[neighbors[n].id] then r + [neighbors[n]] else r
  }

  ghost function OwnersOutcome(neighbors: seq<Group>, nids: map<int, set<Account?>>): Outcome {
    if neighbors == [] then Loaded
    else if neighbors[0].id !in nids then Unexpected(neighbors[0].id)
    else if null in nids[neighbors[0].id] then NilOwner
    else OwnersOutcome(neighbors[1..], nids)
  }

  /** Appends each neighbour to the groups of each of its owners. The owners of a neighbour are visited in an
      arbitrary order, as a Go map is; the result does not depend on it. */
  method Distribute(nodes: seq<Account>, neighbors: seq<Group>, nids: map<int, set<Account?>>) returns (r: Outcome)
    requires forall g, o :: g in nids && o in nids[g] ==> o == null || o in nodes
    modifies nodes`groups
    ensures r == OwnersOutcome(neighbors, nids)
    ensures r.Loaded? ==> forall a :: a in nodes ==> a.groups == old(a.groups) + GroupsFor(neighbors, nids, a)
  {
    for k := 0 to |neighbors|
      invariant OwnersOutcome(neighbors, nids) == OwnersOutcome(neighbors[k..], nids)
      invariant forall a :: a in nodes ==> a.groups == old(a.groups) + GroupsFor(neighbors[..k], nids, a)
    {
      var n := neighbors[k];
      assert neighbors[k..][0] == n && neighbors[k..][1..] == neighbors[k + 1..];
      assert neighbors[..k + 1][..k] == neighbors[..k];
      if n.id !in nids {
        return Unexpected(n.id);
      }
      var todo: set<Account?> := nids[n.id];
      while todo != {}
        invariant todo <= nids[n.id] && null !in nids[n.id] - todo
        invariant forall a :: a in nodes ==>
                    a.groups == old(a.groups) + GroupsFor(neighbors[..k], nids, a)
                                + if a in nids[n.id] - todo then [n] else []
      {
        var kn: Account? :| kn in todo;
        todo := todo - {kn};
        if kn == null {
          return NilOwner;
        }
        assert kn in nids[n.id] && kn in nodes;
        kn.groups := kn.groups + [n];
      }
    }
    assert neighbors[..|neighbors|] == neighbors;
    return Loaded;
  }

  lemma OwnerIffLinked(nodes: seq<Account>, rows: seq<JoinRow>, nids: map<int, set<Account?>>, a: Account, g: int)
    requires OwnersRecorded(nids, ByID(nodes), rows)
    ensures g in nids && a in nids[g] <==> Owner(nodes, a) && Linked(rows, a.id, g)
  {
    ByIDMeaning(nodes);
    if g in nids && a in nids[g] {
      var r :| r in rows && r.groupID == g && Lookup(ByID(nodes), r.accountID) == a;
      assert r.accountID == a.id;
    }
    if Owner(nodes, a) && Linked(rows, a.id, g) {
      var r :| r in rows && r.accountID == a.id && r.groupID == g;
      assert Lookup(ByID(nodes), r.accountID) == a;
      assert Known(rows, g);
    }
  }

  lemma {:induction false} GroupsForIsJoin(nodes: seq<Account>, neighbors: seq<Group>, rows: seq<JoinRow>,
                                           nids: map<int, set<Account?>>, a: Account)
    requires OwnersRecorded(nids, ByID(nodes), rows)
    ensures GroupsFor(neighbors, nids, a) == if Owner(nodes, a) then JoinedGroups(neighbors, rows, a.id) else []
  {
    if neighbors != [] {
      var n := |neighbors| - 1;
      GroupsForIsJoin(nodes, neighbors[..n], rows, nids, a);
      OwnerIffLinked(nodes, rows, nids, a, neighbors[n].id);
    }
  }

  lemma {:induction false} OwnersOutcomeIsJoin(nodes: seq<Account>, neighbors: seq<Group>, rows: seq<JoinRow>,
                                               nids: map<int, set<Account?>>)
    requires OwnersRecorded(nids, ByID(nodes), rows)
    ensures OwnersOutcome(neighbors, nids) == JoinOutcome(neighbors, rows, IDs(nodes))
    decreases |neighbors|
  {
    if neighbors != [] {
      ByIDMeaning(nodes);
      var g := neighbors[0].id;
      if Known(rows, g) {
        if null in nids[g] {
          var r :| r in rows && r.groupID == g && Lookup(ByID(nodes), r.accountID) == null;
          assert Orphaned(rows, IDs(nodes), g);
        }
        if Orphaned(rows, IDs(nodes), g) {
          var r :| r in rows && r.groupID == g && r.accountID !in IDs(nodes);
          assert Lookup(ByID(nodes), r.accountID) == null;
        }
      }
      OwnersOutcomeIsJoin(nodes, neighbors[1..], rows, nids);
    }
  }

  lemma OwnersAreNodes(nodes: seq<Account>, rows: seq<JoinRow>, nids: map<int, set<Account?>>)
    requires OwnersRecorded(nids, ByID(nodes), rows)
    ensures forall g, o :: g in nids && o in nids[g] ==> o == null || o in nodes
  {
    ByIDMeaning(nodes);
  }

  /** The first loop of the many-to-many loader: the id list, the index, and an empty groups edge everywhere. */
  method IndexForGroups(nodes: seq<Account>) returns (edgeIDs: seq<int>, byID: map<int, Account>)
    modifies nodes`groups
    ensures edgeIDs == IDs(nodes) && byID == ByID(nodes)
    ensures forall a :: a in nodes ==> a.groups == []
  {
    edgeIDs, byID := [], map[];
    for i := 0 to |nodes|
      invariant edgeIDs == IDs(nodes[..i]) && byID == ByID(nodes[..i])
      invariant forall j :: 0 <= j < i ==> nodes[j].groups == []
    {
      assert nodes[..i + 1][..i] == nodes[..i];
      edgeIDs := edgeIDs + [nodes[i].id];
      byID := byID[nodes[i].id := nodes[i]];
      nodes[i].groups := [];
    }
    assert nodes[..|nodes|] == nodes;
  }

  /** Distributing over recorded owners is the join. */
  method DistributeJoin(nodes: seq<Account>, neighbors: seq<Group>, nids: map<int, set<Account?>>,
                        ghost rows: seq<JoinRow>)
    returns (r: Outcome)
    requires OwnersRecorded(nids, ByID(nodes), rows)
    requires forall a :: a in nodes ==> a.groups == []
    modifies nodes`groups
    ensures r == JoinOutcome(neighbors, rows, IDs(nodes))
    ensures r.Loaded? ==> GroupsLoaded(nodes, neighbors, rows)
  {
    OwnersAreNodes(nodes, rows, nids);
    r := Distribute(nodes, neighbors, nids);
    OwnersOutcomeIsJoin(nodes, neighbors, rows, nids);
    forall a | a in nodes
      ensures GroupsFor(neighbors, nids, a) == if Owner(nodes, a) then JoinedGroups(neighbors, rows, a.id) else []
    {
      GroupsForIsJoin(nodes, neighbors, rows, nids, a);
    }
  }

  /** How loading the groups edge ends: on an error of preparation, or that the interceptors hand on, or as
      distributing the neighbours does. */
  ghost function GroupsOutcome(query: GroupQuery, ids: seq<int>, fetched: seq<Group>): Outcome {
    if query.prepareError.Some? then Failed(query.prepareError.value)
    else match query.Handed(ids, fetched)
         case Err(e) => Failed(e)
         case Ok(ns) => JoinOutcome(ns, query.Streamed(ids), ids)
  }

  /** Runs the many-to-many query under its interceptors; owners are only recorded by scanning rows. */
  method FetchGroups(query: GroupQuery, edgeIDs: seq<int>, byID: map<int, Account>)
    returns (r: Groups, nids: map<int, set<Account?>>, ghost fetched: seq<Group>)
    ensures Fetched(fetched, query.Streamed(edgeIDs)) && OwnersRecorded(nids, byID, query.Streamed(edgeIDs))
    ensures forall g :: g in fetched ==> fresh(g)
    ensures r == query.Handed(edgeIDs, fetched)
  {
    match query.interception {
      case Around(after) =>
        var answer := query.answer(edgeIDs);
        var scanned;
        nids, scanned := ScanJoinRows(byID, answer.rows);
        fetched := scanned;
        r := after(if answer.error.Some? then Err(answer.error.value) else Ok(scanned));
      case Instead(result) =>
        r, nids, fetched := result, map[], [];
    }
  }

  /** Loads the groups edge: after success the groups of every account are the neighbours joined to it. */
  method LoadGroups(nodes: seq<Account>, query: GroupQuery)
    returns (r: Outcome, ghost fetched: seq<Group>, ghost neighbors: seq<Group>)
    modifies nodes`groups
    ensures r == GroupsOutcome(query, IDs(nodes), fetched)
    ensures query.prepareError.None? ==> Fetched(fetched, query.Streamed(IDs(nodes)))
    ensures r.Loaded? ==> query.Handed(IDs(nodes), fetched) == Ok(neighbors)
    ensures query.Plain(IDs(nodes), fetched) ==>
              (r.Loaded? <==> forall row :: row in query.answer(IDs(nodes)).rows ==> row.accountID in IDs(nodes))
    ensures r.Failed? ==> forall a :: a in nodes ==> a.groups == []
    ensures r.Loaded? ==> GroupsLoaded(nodes, neighbors, query.Streamed(IDs(nodes)))
  {
    fetched, neighbors := [], [];
    var edgeIDs, byID := IndexForGroups(nodes);
    if query.prepareError.Some? {
      return Failed(query.prepareError.value), fetched, neighbors;
    }
    var result, nids, scanned := FetchGroups(query, edgeIDs, byID);
    fetched := scanned;
    FetchedOutcome(fetched, query.Streamed(edgeIDs), edgeIDs);
    if result.Err? {
      return Failed(result.error), fetched, neighbors;
    }
    neighbors := result.value;
    r := DistributeJoin(nodes, result.value, nids, query.Streamed(edgeIDs));
  }

  /** An interceptor that answers on its own can only answer with nothing: no owner is known for any group. */
  lemma InsteadOutcome(query: GroupQuery, ids: seq<int>, fetched: seq<Group>)
    requires query.prepareError.None? && query.interception.Instead?
    ensures GroupsOutcome(query, ids, fetched).Loaded? <==> query.interception.result == Ok([])
  {
    if query.interception.result.Ok? && query.interception.result.value != [] {
      assert query.interception.result.value[0] in query.interception.result.value;
    }
  }

  // ---------- the proxy edge ----------

  function ProxyKeys(nodes: seq<Account>): (keys: seq<Option<int>>)
    reads nodes`proxyID
    ensures |keys| == |nodes|
    ensures forall i :: 0 <= i < |nodes| ==> keys[i] == nodes[i].proxyID
  {
    if nodes == [] then [] else ProxyKeys(nodes[..|nodes| - 1]) + [nodes[|nodes| - 1].proxyID]
  }

  ghost function ProxyIDs(neighbors: seq<Proxy>): seq<int> {
    Map(neighbors, (x: Proxy) => x.id)
  }

  lemma ProxyOwners(nodes: seq<Account>, id: int)
    ensures forall x :: x in WithKey(nodes, ProxyKeys(nodes), id) <==> x in nodes && x.proxyID == Some(id)
  {
    var keys := ProxyKeys(nodes);
    WithKeyMeaning(nodes, keys, id);
    forall x | x in nodes && x.proxyID == Some(id)
      ensures x in WithKey(nodes, keys, id)
    {
      var i :| 0 <= i < |nodes| && nodes[i] == x;
      assert keys[i] == Some(id);
    }
  }

  method AssignProxy(owners: seq<Account>, n: Proxy)
    modifies owners`proxy
    ensures forall x :: x in owners ==> x.proxy == n
  {
    for i := 0 to |owners|
      invariant forall j :: 0 <= j < i ==> owners[j].proxy == n
    {
      owners[i].proxy := n;
    }
  }

  /** The second loop of the loader: every neighbour goes to the nodes collected under its id. */
  method AssignProxies(nodes: seq<Account>, nodeids: map<int, seq<Account>>, found: seq<Proxy>, ghost ids: seq<int>)
    returns (r: Outcome)
    requires forall k :: k in nodeids <==> k in ids
    requires forall k :: k in nodeids ==> forall x :: x in nodeids[k] <==> x in nodes && x.proxyID == Some(k)
    modifies nodes`proxy
    ensures r == KeysOutcome(ProxyIDs(found), ids)
    ensures r.Loaded? ==> forall x :: x in nodes && x.proxyID.Some? && x.proxyID.value in ids ==>
              x.proxy == if LastProxy(found, x.proxyID.value) != null
                then LastProxy(found, x.proxyID.value) else old(x.proxy)
    ensures forall x :: x in nodes && (x.proxyID.None? || x.proxyID.value !in ids) ==> x.proxy == old(x.proxy)
  {
    for k := 0 to |found|
      invariant KeysOutcome(ProxyIDs(found), ids) == KeysOutcome(ProxyIDs(found)[k..], ids)
      invariant forall x :: x in nodes && x.proxyID.Some? && x.proxyID.value in ids ==>
        x.proxy == if LastProxy(found[..k], x.proxyID.value) != null then LastProxy(found[..k], x.proxyID.value)
                   else old(x.proxy)
      invariant forall x :: x in nodes && (x.proxyID.None? || x.proxyID.value !in ids) ==> x.proxy == old(x.proxy)
    {
      var n := found[k];
      assert ProxyIDs(found)[k..][0] == n.id && ProxyIDs(found)[k..][1..] == ProxyIDs(found)[k + 1..];
      assert found[..k + 1][..k] == found[..k];
      if n.id !in nodeids {
        return Unexpected(n.id);
      }
      var owners := nodeids[n.id];
      assert forall i :: 0 <= i < |owners| ==> owners[i] in owners;
      AssignProxy(owners, n);
    }
    assert found[..|found|] == found;
    return Loaded;
  }

  /** How loading the proxy edge ends: without keys the edge query is not asked at all. */
  ghost function ProxyOutcome(keys: seq<Option<int>>, answer: Answer<Proxy>): Outcome {
    var ids := FirstSeen(Somes(keys));
    if ids == [] then Loaded
    else match answer(ids)
         case Err(e) => Failed(e)
         case Ok(ns) => KeysOutcome(ProxyIDs(ns), ids)
  }

  /** Loads the proxy edge: every account with a proxy key points at the last returned proxy with that key, if any;
      accounts without a key are untouched. */
  method LoadProxy(nodes: seq<Account>, answer: Answer<Proxy>) returns (r: Outcome, ghost neighbors: seq<Proxy>)
    modifies nodes`proxy
    ensures r == ProxyOutcome(ProxyKeys(nodes), answer)
    ensures r.Loaded? ==>
              var ids := FirstSeen(Somes(ProxyKeys(nodes)));
              if ids == [] then neighbors == [] else answer(ids) == Ok(neighbors)
    ensures r.Loaded? ==> forall x :: x in nodes ==>
              x.proxy == if x.proxyID.Some? && LastProxy(neighbors, x.proxyID.value) != null
                then LastProxy(neighbors, x.proxyID.value) else old(x.proxy)
  {
    neighbors := [];
    ghost var keys := ProxyKeys(nodes);
    FirstSeenMeaning(Somes(keys));
    var ids, nodeids := GroupByKey(nodes, ProxyKeys(nodes));
    forall x | x in nodes && x.proxyID.Some?
      ensures x.proxyID.value in ids
    {
      ProxyOwners(nodes, x.proxyID.value);
      AbsentKey(nodes, keys, x.proxyID.value);
    }
    if ids == [] {
      return Loaded, neighbors;
    }
    var result := answer(ids);
    if result.Err? {
      return Failed(result.error), neighbors;
    }
    neighbors := result.value;
    forall k | k in nodeids
      ensures forall x :: x in nodeids[k] <==> x in nodes && x.proxyID == Some(k)
    {
      ProxyOwners(nodes, k);
    }
    r := AssignProxies(nodes, nodeids, result.value, ids);
  }

  // ---------- the one-to-many edges ----------

  /** The first loop of the usage log loader. */
  method IndexForLogs(nodes: seq<Account>) returns (fks: seq<int>, nodeids: map<int, Account>)
    modifies nodes`usageLogs
    ensures fks == IDs(nodes) && nodeids == ByID(nodes)
    ensures forall a :: a in nodes ==> a.usageLogs == []
  {
    fks, nodeids := [], map[];
    for i := 0 to |nodes|
      invariant fks == IDs(nodes[..i]) && nodeids == ByID(nodes[..i])
      invariant forall j :: 0 <= j < i ==> nodes[j].usageLogs == []
    {
      assert nodes[..i + 1][..i] == nodes[..i];
      fks := fks + [nodes[i].id];
      nodeids := nodeids[nodes[i].id := nodes[i]];
      nodes[i].usageLogs := [];
    }
    assert nodes[..|nodes|] == nodes;
  }

  ghost function LogKeys(neighbors: seq<UsageLog>): seq<int> {
    Map(neighbors, (x: UsageLog) => x.accountID)
  }

  /** The second loop: every log is appended to the account with its key. */
  method AppendLogs(nodes: seq<Account>, nodeids: map<int, Account>, found: seq<UsageLog>, ghost ids: seq<int>)
    returns (r: Outcome)
    requires forall id :: id in nodeids <==> id in ids
    requires forall id :: id in nodeids ==> nodeids[id] in nodes && nodeids[id].id == id
    requires forall a :: a in nodes ==> a.usageLogs == []
    modifies nodes`usageLogs
    ensures r == KeysOutcome(LogKeys(found), ids)
    ensures r.Loaded? ==> forall a :: a in nodes ==>
              a.usageLogs == if a.id in nodeids && nodeids[a.id] == a then LogsOf(found, a.id) else []
  {
    ghost var keys := LogKeys(found);
    for k := 0 to |found|
      invariant KeysOutcome(keys, ids) == KeysOutcome(keys[k..], ids)
      invariant forall a :: a in nodes ==>
        a.usageLogs == if a.id in nodeids && nodeids[a.id] == a then LogsOf(found[..k], a.id) else []
    {
      var n := found[k];
      assert keys[k..][0] == n.accountID && keys[k..][1..] == keys[k + 1..];
      assert found[..k + 1][..k] == found[..k];
      if n.accountID !in nodeids {
        return Unexpected(n.accountID);
      }
      var node := nodeids[n.accountID];
      node.usageLogs := node.usageLogs + [n];
    }
    assert found[..|found|] == found;
    return Loaded;
  }

  /** The fields a usage log query is sent with. */
  function LogFieldsSent(fs: seq<LogColumn>): seq<LogColumn> {
    if fs == [] || LogAccountID in fs then fs else fs + [LogAccountID]
  }

  /** Asks for the logs of some accounts; a narrowed selection first gets the foreign key back. */
  method FetchLogs(query: UsageLogQuery, fks: seq<int>) returns (r: Result<seq<UsageLog>, Error>)
    modifies query`fields
    ensures match query.ErrorFor(fks, LogFieldsSent(old(query.fields))) case Some(e) => r == Err(e) case None => r.Ok?
    ensures r.Ok? ==> query.rows(fks).Ok? && UsageLogQueries.Scanned(r.value, query.rows(fks).value, true)
    ensures query.fields == LogFieldsSent(old(query.fields))
  {
    if |query.fields| > 0 {
      query.AppendFieldOnce(LogAccountID);
    }
    assert query.SelectsAccount(query.fields);
    r := query.All(fks);
  }

  ghost function LogRowKeys(rows: seq<LogRow>): seq<int> {
    Map(rows, (x: LogRow) => x.accountID)
  }

  /** How loading the usage log edge ends: on an error of the query, or at the first row whose key is no account's. */
  ghost function LogsOutcome(query: UsageLogQuery, ids: seq<int>, fs: seq<LogColumn>): Outcome {
    match query.ErrorFor(ids, LogFieldsSent(fs))
    case Some(e) => Failed(e)
    case None => KeysOutcome(LogRowKeys(query.rows(ids).value), ids)
  }

  /** Loads the usage log edge. */
  method LoadUsageLogs(nodes: seq<Account>, query: UsageLogQuery) returns (r: Outcome, ghost neighbors: seq<UsageLog>)
    modifies nodes`usageLogs, query`fields
    ensures r == LogsOutcome(query, IDs(nodes), old(query.fields)) && query.fields == LogFieldsSent(old(query.fields))
    ensures r.Failed? ==> forall a :: a in nodes ==> a.usageLogs == []
    ensures !r.Failed? ==>
              query.rows(IDs(nodes)).Ok? && UsageLogQueries.Scanned(neighbors, query.rows(IDs(nodes)).value, true)
    ensures r.Loaded? ==> UsageLogsLoaded(nodes, neighbors)
  {
    neighbors := [];
    var fks, nodeids := IndexForLogs(nodes);
    ByIDKeys(nodes);
    var result := FetchLogs(query, fks);
    if result.Err? {
      return Failed(result.error), neighbors;
    }
    neighbors := result.value;
    assert LogKeys(neighbors) == LogRowKeys(query.rows(fks).value);
    r := AppendLogs(nodes, nodeids, result.value, fks);
    assert nodeids == ByID(nodes);
  }

  /** The first loop of the join entity loader. */
  method IndexForLinks(nodes: seq<Account>) returns (fks: seq<int>, nodeids: map<int, Account>)
    modifies nodes`accountGroups
    ensures fks == IDs(nodes) && nodeids == ByID(nodes)
    ensures forall a :: a in nodes ==> a.accountGroups == []
  {
    fks, nodeids := [], map[];
    for i := 0 to |nodes|
      invariant fks == IDs(nodes[..i]) && nodeids == ByID(nodes[..i])
      invariant forall j :: 0 <= j < i ==> nodes[j].accountGroups == []
    {
      assert nodes[..i + 1][..i] == nodes[..i];
      fks := fks + [nodes[i].id];
      nodeids := nodeids[nodes[i].id := nodes[i]];
      nodes[i].accountGroups := [];
    }
    assert nodes[..|nodes|] == nodes;
  }

  ghost function LinkKeys(neighbors: seq<AccountGroup>): seq<int> {
    Map(neighbors, (x: AccountGroup) => x.accountID)
  }

  /** The second loop: every join entity is appended to the account with its key. */
  method AppendLinks(nodes: seq<Account>, nodeids: map<int, Account>, found: seq<AccountGroup>, ghost ids: seq<int>)
    returns (r: Outcome)
    requires forall id :: id in nodeids <==> id in ids
    requires forall id :: id in nodeids ==> nodeids[id] in nodes && nodeids[id].id == id
    requires forall a :: a in nodes ==> a.accountGroups == []
    modifies nodes`accountGroups
    ensures r == KeysOutcome(LinkKeys(found), ids)
    ensures r.Loaded? ==> forall a :: a in nodes ==>
              a.accountGroups == if a.id in nodeids && nodeids[a.id] == a then LinksOf(found, a.id) else []
  {
    ghost var keys := LinkKeys(found);
    for k := 0 to |found|
      invariant KeysOutcome(keys, ids) == KeysOutcome(keys[k..], ids)
      invariant forall a :: a in nodes ==>
        a.accountGroups == if a.id in nodeids && nodeids[a.id] == a then LinksOf(found[..k], a.id) else []
    {
      var n := found[k];
      assert keys[k..][0] == n.accountID && keys[k..][1..] == keys[k + 1..];
      assert found[..k + 1][..k] == found[..k];
      if n.accountID !in nodeids {
        return Unexpected(n.accountID);
      }
      var node := nodeids[n.accountID];
      node.accountGroups := node.accountGroups + [n];
    }
    assert found[..|found|] == found;
    return Loaded;
  }

  /** The fields a join entity query is sent with. */
  function FieldsSent(fs: seq<LinkColumn>): seq<LinkColumn> {
    if fs == [] then fs else AddOnce(fs, LinkAccountID)
  }

  /** Asks for the join entities of some accounts; a narrowed selection first gets the foreign key back. */
  method FetchLinks(query: AccountGroupQuery, fks: seq<int>)
    returns (r: Result<seq<AccountGroup>, Error>, ghost accounts: seq<Account>, ghost groups: seq<Group>)
    modifies query`fields
    ensures var fs := FieldsSent(old(query.fields));
            match query.ErrorFor(fks, fs, query.AnsweredIDs(fks, fs)) case Some(e) => r == Err(e) case None => r.Ok?
    ensures r.Ok? ==> query.rows(fks).Ok?
    ensures r.Ok? ==> LinksFetched(query, old(query.fields), query.rows(fks).value, r.value, accounts, groups)
    ensures r.Ok? ==> forall x :: x in r.value ==> fresh(x)
    ensures query.fields == FieldsSent(old(query.fields))
  {
    if |query.fields| > 0 {
      query.AppendFieldOnce(LinkAccountID);
    }
    r, accounts, groups := query.All(fks);
  }

  /** The join entities answer the query: their account key is the row's whatever was selected, so is their group key
      if its column is selected, and their loaded edges point at the last neighbour with their key. */
  ghost predicate LinksFetched(query: AccountGroupQuery, fs: seq<LinkColumn>, rows: seq<LinkRow>,
                               links: seq<AccountGroup>, accounts: seq<Account>, groups: seq<Group>)
    reads links`account, links`group, accounts`id
  {
    && |links| == |rows|
    && NoDup(links)
    && (forall i :: 0 <= i < |links| ==> links[i].accountID == rows[i].accountID)
    && (forall i :: 0 <= i < |links| ==>
          links[i].groupID == if LinkGroupID in query.ColumnsFor(FieldsSent(fs)) then rows[i].groupID else 0)
    && (links != [] && query.withAccount.Some? ==>
        query.withAccount.value(FirstSeen(Somes(AccountKeys(links)))) == Ok(accounts))
    && (links != [] && query.withGroup.Some? ==>
        query.withGroup.value(FirstSeen(Somes(GroupKeys(links)))) == Ok(groups))
    && (forall x :: x in links ==>
        x.account == if query.withAccount.Some? then LastAccount(accounts, x.accountID) else null)
    && (forall x :: x in links ==> x.group == if query.withGroup.Some? then LastGroup(groups, x.groupID) else null)
  }

  ghost function LinkRowKeys(rows: seq<LinkRow>): seq<int> {
    Map(rows, (x: LinkRow) => x.accountID)
  }

  /** How loading the join entity edge ends: on an error of the query, its own edges included, or at the first row
      whose key is no account's. `answered` are the ids of the accounts that its account edge answers. */
  ghost function LinksOutcome(query: AccountGroupQuery, ids: seq<int>, fs: seq<LinkColumn>,
                              answered: seq<int>): Outcome {
    match query.ErrorFor(ids, FieldsSent(fs), answered)
    case Some(e) => Failed(e)
    case None => KeysOutcome(LinkRowKeys(query.rows(ids).value), ids)
  }

  /** The second loop, on fetched join entities. */
  method AppendFetched(nodes: seq<Account>, nodeids: map<int, Account>, found: seq<AccountGroup>,
                       query: AccountGroupQuery, ghost fs: seq<LinkColumn>, ghost ids: seq<int>,
                       ghost accounts: seq<Account>, ghost groups: seq<Group>)
    returns (r: Outcome)
    requires nodeids == ByID(nodes) && ids == IDs(nodes) && query.rows(ids).Ok?
    requires LinksFetched(query, fs, query.rows(ids).value, found, accounts, groups)
    requires forall a :: a in nodes ==> a.accountGroups == []
    modifies nodes`accountGroups
    ensures LinksFetched(query, fs, query.rows(ids).value, found, accounts, groups)
    ensures r == KeysOutcome(LinkRowKeys(query.rows(ids).value), ids)
    ensures r.Loaded? ==> AccountGroupsLoaded(nodes, found)
  {
    ByIDKeys(nodes);
    assert LinkKeys(found) == LinkRowKeys(query.rows(ids).value);
    r := AppendLinks(nodes, nodeids, found, ids);
    assert nodeids == ByID(nodes);
  }

  /** Loads the join entity edge, with whatever edges of its own the join entity query asks for. */
  method LoadAccountGroups(nodes: seq<Account>, query: AccountGroupQuery)
    returns (r: Outcome, ghost neighbors: seq<AccountGroup>, ghost accounts: seq<Account>, ghost groups: seq<Group>)
    modifies nodes`accountGroups, query`fields
    ensures r == LinksOutcome(query, IDs(nodes), old(query.fields),
                              old(query.AnsweredIDs(IDs(nodes), FieldsSent(query.fields))))
    ensures query.fields == FieldsSent(old(query.fields))
    ensures r.Failed? ==> forall a :: a in nodes ==> a.accountGroups == []
    ensures !r.Failed? ==>
              && query.rows(IDs(nodes)).Ok?
              && LinksFetched(query, old(query.fields), query.rows(IDs(nodes)).value, neighbors, accounts, groups)
              && (forall x :: x in neighbors ==> fresh(x))
    ensures r.Loaded? ==> AccountGroupsLoaded(nodes, neighbors)
  {
    neighbors := [];
    ghost var fs := FieldsSent(query.fields);
    ghost var asked := query.AnsweredAccounts(IDs(nodes), fs);
    IDsMeaning(asked);
    var fks, nodeids := IndexForLinks(nodes);
    var result, accs, grps := FetchLinks(query, fks);
    IDsMeaning(asked);
    assert IDs(asked) == old(IDs(asked));
    accounts, groups := accs, grps;
    if result.Err? {
      return Failed(result.error), neighbors, accounts, groups;
    }
    neighbors := result.value;
    r := AppendFetched(nodes, nodeids, result.value, query, old(query.fields), fks, accounts, groups);
  }
}
