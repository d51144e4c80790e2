/** Running an account query: scanning the selected columns into fresh accounts, then loading the requested edges
    one after the other. */
module AccountSqlAll {
  import opened Wrappers
  import opened Sequences
  import opened AccountColumns
  import opened Entities
  import opened EdgeSpecs
  import opened AccountGroupQueries
  import opened AccountQueries
  import opened KeyGroups
  import UsageLogQueries

  function RowID(row: Row): int {
    if row(ID).Some? then row(ID).value else 0
  }

  /** Each account carries its row's id, and its row's proxy key when the proxy edge is requested: nothing here
      depends on which fields were selected. */
  ghost predicate KeysScanned(nodes: seq<Account>, rows: seq<Row>, withProxy: bool)
    reads nodes`id, nodes`proxyID
  {
    && |nodes| == |rows|
    && NoDup(nodes)
    && (forall i :: 0 <= i < |nodes| ==> nodes[i].id == RowID(rows[i]))
    && (withProxy ==> forall i :: 0 <= i < |nodes| ==> nodes[i].proxyID == rows[i](ProxyID))
  }

  ghost function RowIDs(rows: seq<Row>): (ids: seq<int>)
    ensures |ids| == |rows| && forall i :: 0 <= i < |ids| ==> ids[i] == RowID(rows[i])
  {
    seq(|rows|, i requires 0 <= i < |rows| => RowID(rows[i]))
  }

  ghost function RowProxyKeys(rows: seq<Row>): (keys: seq<Option<int>>)
    ensures |keys| == |rows| && forall i :: 0 <= i < |keys| ==> keys[i] == rows[i](ProxyID)
  {
    seq(|rows|, i requires 0 <= i < |rows| => rows[i](ProxyID))
  }

  lemma ScannedKeysAreRowKeys(nodes: seq<Account>, rows: seq<Row>, withProxy: bool)
    requires KeysScanned(nodes, rows, withProxy)
    ensures IDs(nodes) == RowIDs(rows)
    ensures withProxy ==> ProxyKeys(nodes) == RowProxyKeys(rows)
  {
    IDsMeaning(nodes);
  }

  /** The fields the two stateful edge queries select before a run, and the ids of the accounts the join entities' own
      account edge answers. */
  datatype EdgeState = EdgeState(logFields: seq<UsageLogQueries.LogColumn>, linkFields: seq<LinkColumn>,
                                 answered: seq<int>)

  /** An account query: the fields it selects, the rows it streams and the error that ends the stream, if any, the JSON
      payloads that decode, and the edge queries. */
  class AccountQuery {
    var fields: seq<Column>
    const rows: seq<Row>
    const rowsError: Option<Error>
    const json: int -> bool
    const withGroups: Option<GroupQuery>
    const withProxy: Option<Answer<Proxy>>
    const withUsageLogs: Option<UsageLogQueries.UsageLogQuery>
    const withAccountGroups: Option<AccountGroupQuery>

    constructor (fields: seq<Column>, rows: seq<Row>, rowsError: Option<Error>, json: int -> bool,
                 withGroups: Option<GroupQuery>, withProxy: Option<Answer<Proxy>>,
                 withUsageLogs: Option<UsageLogQueries.UsageLogQuery>, withAccountGroups: Option<AccountGroupQuery>)
      ensures this.fields == fields && this.rows == rows && this.rowsError == rowsError && this.json == json
      ensures this.withGroups == withGroups
      ensures this.withProxy == withProxy && this.withUsageLogs == withUsageLogs
      ensures this.withAccountGroups == withAccountGroups
    {
      this.fields, this.rows, this.rowsError, this.json := fields, rows, rowsError, json;
      this.withGroups := withGroups;
      this.withProxy, this.withUsageLogs, this.withAccountGroups := withProxy, withUsageLogs, withAccountGroups;
    }

    function Loaded(): LoadedTypes {
      LoadedTypes(withGroups.Some?, withProxy.Some?, withUsageLogs.Some?, withAccountGroups.Some?)
    }

    function LogQueries(): set<UsageLogQueries.UsageLogQuery> {
      if withUsageLogs.Some? then {withUsageLogs.value} else {}
    }

    function LinkQueries(): set<AccountGroupQuery> {
      if withAccountGroups.Some? then {withAccountGroups.value} else {}
    }

    /** The column list of the query. */
    method QuerySpec() returns (columns: seq<Column>)
      ensures columns == NodeColumns(fields, withProxy.Some?)
      ensures ID in columns && (withProxy.Some? ==> ProxyID in columns)
    {
      NodeColumnsMeaning(fields, withProxy.Some?);
      if fields == [] {
        return AllColumns();
      }
      columns := [ID];
      for i := 0 to |fields|
        invariant columns == [ID] + WithoutID(fields[..i])
      {
        assert fields[..i + 1][..i] == fields[..i];
        if fields[i] != ID {
          columns := columns + [fields[i]];
        }
      }
      assert fields[..|fields|] == fields;
      if withProxy.Some? {
        columns := AddColumnOnce(columns, ProxyID);
      }
    }

    function Columns(): seq<Column>
      reads this`fields
    {
      NodeColumns(fields, withProxy.Some?)
    }

    /** The account holds the decoded row, restricted to the selected columns, with its keys. */
    ghost predicate ScannedFrom(columns: seq<Column>, row: Row, x: Account)
      reads x`id, x`proxyID, x`fields, x`selected
    {
      && x.id == RowID(row) && (withProxy.Some? ==> x.proxyID == row(ProxyID))
      && Decodes(columns, row, x.Scalars())
    }

    /** The account holds its row: the id, the proxy key if it is selected or its edge is requested, and every other
        value that is selected and not NULL; without requested fields everything is selected. */
    ghost predicate HoldsRow(row: Row, x: Account)
      reads this`fields, x`id, x`proxyID, x`fields, x`selected
    {
      && x.id == (if row(ID).Some? then row(ID).value else 0)
      && x.proxyID == (if fields == [] || ProxyID in fields || withProxy.Some? then row(ProxyID) else None)
      && (forall c :: c in x.fields <==>
            row(c).Some? && (fields == [] || c in fields) && !c.ID? && !c.ProxyID? && !c.Other?)
      && (forall c :: c in x.fields ==> x.fields[c] == row(c).value)
      && (forall c :: c in x.selected <==> c in fields && c.Other?)
      && (forall c :: c in x.selected ==> x.selected[c] == row(c))
    }

    lemma ScannedHolds(row: Row, x: Account)
      requires ScannedFrom(Columns(), row, x)
      ensures HoldsRow(row, x)
    {
      NodeColumnsMeaning(fields, withProxy.Some?);
    }

    lemma RowsHeld(nodes: seq<Account>, found: seq<Row>)
      requires RowsScanned(nodes, found)
      ensures forall i :: 0 <= i < |nodes| ==> HoldsRow(found[i], nodes[i])
      ensures fields == [] ==> forall i, c: Column ::
                0 <= i < |nodes| && !c.ID? && !c.ProxyID? && !c.Other? && found[i](c).Some? ==>
                  c in nodes[i].fields && nodes[i].fields[c] == found[i](c).value
    {
      forall i | 0 <= i < |nodes|
        ensures HoldsRow(found[i], nodes[i])
      {
        ScannedHolds(found[i], nodes[i]);
      }
    }

    /** Scans one row into a fresh account. The type errors of assigning cannot occur; only decoding can fail. */
    method ScanNode(columns: seq<Column>, row: Row) returns (ok: bool, node: Account)
      requires ID in columns && (withProxy.Some? ==> ProxyID in columns)
      ensures fresh(node)
      ensures ok <==> RowDecodable(columns, row, json)
      ensures ok ==> Unloaded(node) && ScannedFrom(columns, row, node)
    {
      var values := ScanValues(columns);
      values := Filled(columns, row);
      node := new Account();
      node.loadedTypes := Loaded();
      ScanThenAssign(columns, row);
      KeysDecode(columns, row);
      RowDecodes(columns, values, row);
      DecodableRow(columns, row);
      ok := node.AssignValues(columns, values, json);
    }

    lemma DecodableRow(columns: seq<Column>, row: Row)
      ensures RowDecodable(columns, row, json) <==>
                forall i :: 0 <= i < |columns| ==> Decodable(columns[i], row(columns[i]), json)
    {
      assert forall i :: 0 <= i < |columns| ==> columns[i] in columns;
    }

    /** An account as scanned, before any edge is loaded. */
    ghost predicate Unloaded(x: Account)
      reads x
    {
      x.loadedTypes == Loaded() && x.groups == [] && x.proxy == null && x.usageLogs == [] && x.accountGroups == []
    }

    /** Every row's selected values can be decoded. */
    ghost predicate AllDecodable(found: seq<Row>)
      reads this`fields
    {
      forall i :: 0 <= i < |found| ==> RowDecodable(Columns(), found[i], json)
    }

    /** The accounts are different objects, each scanned from the row at its position. */
    ghost predicate RowsScanned(nodes: seq<Account>, found: seq<Row>)
      reads this`fields, nodes`id, nodes`proxyID, nodes`fields, nodes`selected
    {
      |nodes| == |found| && NoDup(nodes) && forall i :: 0 <= i < |nodes| ==> ScannedFrom(Columns(), found[i], nodes[i])
    }

    lemma RowsScannedKeys(nodes: seq<Account>, found: seq<Row>)
      requires RowsScanned(nodes, found)
      ensures KeysScanned(nodes, found, withProxy.Some?)
      ensures IDs(nodes) == RowIDs(found) && (withProxy.Some? ==> ProxyKeys(nodes) == RowProxyKeys(found))
    {
      assert forall i :: 0 <= i < |nodes| ==> ScannedFrom(Columns(), found[i], nodes[i]);
      ScannedKeysAreRowKeys(nodes, found, withProxy.Some?);
    }

    /** Scans the rows one after the other, up to the first one that does not decode. */
    method ScanRows(columns: seq<Column>, found: seq<Row>) returns (ok: bool, nodes: seq<Account>)
      requires ID in columns && (withProxy.Some? ==> ProxyID in columns)
      ensures ok <==> forall k :: 0 <= k < |found| ==> RowDecodable(columns, found[k], json)
      ensures ok ==> |nodes| == |found| && NoDup(nodes)
      ensures ok ==> forall k :: 0 <= k < |nodes| ==> ScannedFrom(columns, found[k], nodes[k])
      ensures forall x :: x in nodes ==> fresh(x) && Unloaded(x)
    {
      nodes := [];
      for i := 0 to |found|
        invariant |nodes| == i && NoDup(nodes)
        invariant forall k :: 0 <= k < i ==> RowDecodable(columns, found[k], json)
        invariant forall k :: 0 <= k < i ==> ScannedFrom(columns, found[k], nodes[k])
        invariant forall x :: x in nodes ==> fresh(x) && Unloaded(x)
      {
        var decoded, node := ScanNode(columns, found[i]);
        if !decoded {
          return false, nodes;
        }
        assert node !in nodes;
        nodes := nodes + [node];
      }
      return true, nodes;
    }

    method ScanNodes(found: seq<Row>) returns (r: Result<seq<Account>, Error>)
      ensures if AllDecodable(found) then r.Ok? else r == Err(Undecodable)
      ensures r.Ok? ==> RowsScanned(r.value, found)
      ensures r.Ok? ==> forall x :: x in r.value ==> fresh(x) && Unloaded(x)
    {
      var columns := QuerySpec();
      var ok, nodes := ScanRows(columns, found);
      return if ok then Ok(nodes) else Err(Undecodable);
    }

    /** Scanning changes no account that exists. */
    method ScanFresh(found: seq<Row>, ghost asked: seq<Account>) returns (r: Result<seq<Account>, Error>)
      ensures if AllDecodable(found) then r.Ok? else r == Err(Undecodable)
      ensures r.Ok? ==> RowsScanned(r.value, found)
      ensures r.Ok? ==> forall x :: x in r.value ==> fresh(x) && Unloaded(x)
      ensures IDs(asked) == old(IDs(asked))
    {
      IDsMeaning(asked);
      r := ScanNodes(found);
      IDsMeaning(asked);
    }

    // ---------- the four edges after a successful run ----------

    /** The groups edge: empty if not requested, else the join with the groups the interceptors hand on. */
    ghost predicate GroupsEdge(nodes: seq<Account>, fetched: seq<Group>, joined: seq<Group>)
      reads nodes`id, nodes`groups
    {
      if withGroups.None? then forall x :: x in nodes ==> x.groups == []
      else
        var rs := withGroups.value.Streamed(IDs(nodes));
        && Fetched(fetched, rs) && withGroups.value.Handed(IDs(nodes), fetched) == Ok(joined)
        && GroupsLoaded(nodes, joined, rs)
    }

    /** The proxy edge: the last proxy with the account's key in the answer to the distinct keys, if any. */
    ghost predicate ProxyEdge(nodes: seq<Account>)
      reads nodes`proxyID, nodes`proxy
    {
      var ids := FirstSeen(Somes(ProxyKeys(nodes)));
      forall x :: x in nodes ==>
        if withProxy.None? || x.proxyID.None? then x.proxy == null
        else withProxy.value(ids).Ok? && x.proxy == LastProxy(withProxy.value(ids).value, x.proxyID.value)
    }

    /** Some account has a proxy key if one of these does. */
    lemma KeysToAsk(nodes: seq<Account>)
      ensures FirstSeen(Somes(ProxyKeys(nodes))) == [] ==> forall x :: x in nodes ==> x.proxyID.None?
    {
      var keys := ProxyKeys(nodes);
      SomesMeaning(keys);
      FirstSeenMeaning(Somes(keys));
      forall x | x in nodes && x.proxyID.Some?
        ensures FirstSeen(Somes(keys)) != []
      {
        var k := x.proxyID.value;
        var i :| 0 <= i < |nodes| && nodes[i] == x;
        assert keys[i] == Some(k);
        assert Some(k) in keys;
        assert k in FirstSeen(Somes(keys));
      }
    }

    /** The usage log edge: the logs that carry the account's id, in answer order. */
    ghost predicate UsageLogsEdge(nodes: seq<Account>, logs: seq<UsageLog>)
      reads nodes`id, nodes`usageLogs
    {
      if withUsageLogs.None? then forall x :: x in nodes ==> x.usageLogs == []
      else
        && withUsageLogs.value.rows(IDs(nodes)).Ok?
        && UsageLogQueries.Scanned(logs, withUsageLogs.value.rows(IDs(nodes)).value, true)
        && UsageLogsLoaded(nodes, logs)
    }

    /** The join entity edge: the join entities that carry the account's id, in answer order. */
    ghost predicate AccountGroupsEdge(nodes: seq<Account>, fs: seq<LinkColumn>, links: seq<AccountGroup>,
                                      accounts: seq<Account>, groups: seq<Group>)
      reads nodes`id, nodes`accountGroups, links`account, links`group, accounts`id
    {
      if withAccountGroups.None? then forall x :: x in nodes ==> x.accountGroups == []
      else
        && withAccountGroups.value.rows(IDs(nodes)).Ok?
        && LinksFetched(withAccountGroups.value, fs, withAccountGroups.value.rows(IDs(nodes)).value, links, accounts,
                        groups)
        && AccountGroupsLoaded(nodes, links)
    }

    ghost predicate EdgesLoaded(nodes: seq<Account>, fetched: seq<Group>, joined: seq<Group>, logs: seq<UsageLog>,
                                fs: seq<LinkColumn>, links: seq<AccountGroup>, accounts: seq<Account>,
                                groups: seq<Group>)
      reads nodes`id, nodes`proxyID, nodes`groups, nodes`proxy, nodes`usageLogs, nodes`accountGroups
      reads links`account, links`group, accounts`id
    {
      && GroupsEdge(nodes, fetched, joined) && ProxyEdge(nodes) && UsageLogsEdge(nodes, logs)
      && AccountGroupsEdge(nodes, fs, links, accounts, groups)
    }

    // ---------- why a run fails ----------

    ghost function GroupsError(ids: seq<int>, fetched: seq<Group>): Option<Error> {
      if withGroups.Some? then ErrorOf(GroupsOutcome(withGroups.value, ids, fetched)) else None
    }

    /** What was fetched for the groups edge is what its query streamed, whether the run succeeds or not. */
    ghost predicate GroupsFetched(ids: seq<int>, fetched: seq<Group>) {
      withGroups.Some? && withGroups.value.prepareError.None? ==> Fetched(fetched, withGroups.value.Streamed(ids))
    }

    ghost function ProxyError(keys: seq<Option<int>>): Option<Error> {
      if withProxy.Some? then ErrorOf(ProxyOutcome(keys, withProxy.value)) else None
    }

    ghost function LogsError(ids: seq<int>, fs: seq<UsageLogQueries.LogColumn>): Option<Error> {
      if withUsageLogs.Some? then ErrorOf(LogsOutcome(withUsageLogs.value, ids, fs)) else None
    }

    ghost function LinksError(ids: seq<int>, fs: seq<LinkColumn>, answered: seq<int>): Option<Error> {
      if withAccountGroups.Some? then ErrorOf(LinksOutcome(withAccountGroups.value, ids, fs, answered)) else None
    }

    ghost function LogFields(): seq<UsageLogQueries.LogColumn>
      reads LogQueries()`fields
    {
      if withUsageLogs.Some? then withUsageLogs.value.fields else []
    }

    ghost function LinkFields(): seq<LinkColumn>
      reads LinkQueries()`fields
    {
      if withAccountGroups.Some? then withAccountGroups.value.fields else []
    }

    /** The accounts that the join entities' own account edge answers, when their query selects fs. */
    ghost function AnsweredBy(ids: seq<int>, fs: seq<LinkColumn>): seq<Account> {
      if withAccountGroups.Some? then withAccountGroups.value.AnsweredAccounts(ids, FieldsSent(fs)) else []
    }

    /** What a run finds in the edge queries that have a state: the fields they select, and the ids of the accounts
        that the join entities' own account edge answers. */
    ghost function Found(ids: seq<int>): EdgeState
      reads LogQueries()`fields, LinkQueries()`fields, AnsweredBy(ids, LinkFields())`id
    {
      EdgeState(LogFields(), LinkFields(), IDs(AnsweredBy(ids, LinkFields())))
    }

    /** The error a run ends with: that of the first requested edge, in loading order, that fails. */
    ghost function EdgesError(ids: seq<int>, keys: seq<Option<int>>, fetched: seq<Group>, f: EdgeState): Option<Error> {
      if GroupsError(ids, fetched).Some? then GroupsError(ids, fetched)
      else if ProxyError(keys).Some? then ProxyError(keys)
      else if LogsError(ids, f.logFields).Some? then LogsError(ids, f.logFields)
      else LinksError(ids, f.linkFields, f.answered)
    }

    /** The fields the two stateful edge queries select after a run: each loader that is reached adds the foreign key to
        a narrowed selection. */
    ghost function FieldsAfter(ids: seq<int>, keys: seq<Option<int>>, fetched: seq<Group>, f: EdgeState):
      (seq<UsageLogQueries.LogColumn>, seq<LinkColumn>)
    {
      if GroupsError(ids, fetched).Some? || ProxyError(keys).Some? then (f.logFields, f.linkFields)
      else (LogFieldsSent(f.logFields), if LogsError(ids, f.logFields).Some?
            then f.linkFields else FieldsSent(f.linkFields))
    }

    /** However far a run gets, a further one sends the same fields. */
    lemma SentAgain(ids: seq<int>, keys: seq<Option<int>>, fetched: seq<Group>, f: EdgeState)
      ensures LogFieldsSent(FieldsAfter(ids, keys, fetched, f).0) == LogFieldsSent(f.logFields)
      ensures FieldsSent(FieldsAfter(ids, keys, fetched, f).1) == FieldsSent(f.linkFields)
    {
    }

    method RunGroups(nodes: seq<Account>, ghost ids: seq<int>)
      returns (e: Option<Error>, ghost fetched: seq<Group>, ghost joined: seq<Group>)
      requires ids == IDs(nodes) && forall x :: x in nodes ==> x.groups == []
      modifies nodes`groups
      ensures e == GroupsError(ids, fetched) && GroupsFetched(ids, fetched)
      ensures e.None? ==> GroupsEdge(nodes, fetched, joined)
    {
      fetched, joined := [], [];
      if withGroups.Some? {
        var outcome, f, j := LoadGroups(nodes, withGroups.value);
        fetched, joined := f, j;
        if !outcome.Loaded? {
          return Some(outcome.AsError()), fetched, joined;
        }
      }
      return None, fetched, joined;
    }

    method RunProxy(nodes: seq<Account>, ghost keys: seq<Option<int>>, ghost fetched: seq<Group>,
                    ghost joined: seq<Group>)
      returns (e: Option<Error>)
      requires (withProxy.Some? ==> keys == ProxyKeys(nodes)) && forall x :: x in nodes ==> x.proxy == null
      requires GroupsEdge(nodes, fetched, joined)
      modifies nodes`proxy
      ensures e == ProxyError(keys)
      ensures GroupsEdge(nodes, fetched, joined)
      ensures e.None? ==> ProxyEdge(nodes)
    {
      if withProxy.Some? {
        KeysToAsk(nodes);
        var outcome, _ := LoadProxy(nodes, withProxy.value);
        if !outcome.Loaded? {
          return Some(outcome.AsError());
        }
      }
      return None;
    }

    method RunUsageLogs(nodes: seq<Account>, ghost ids: seq<int>, ghost fs: seq<UsageLogQueries.LogColumn>,
                        ghost fetched: seq<Group>, ghost joined: seq<Group>, ghost asked: seq<Account>)
      returns (e: Option<Error>, ghost logs: seq<UsageLog>)
      requires ids == IDs(nodes) && forall x :: x in nodes ==> x.usageLogs == []
      requires fs == LogFields()
      requires GroupsEdge(nodes, fetched, joined) && ProxyEdge(nodes)
      modifies nodes`usageLogs, LogQueries()`fields
      ensures e == LogsError(ids, fs) && LogFields() == LogFieldsSent(fs)
      ensures GroupsEdge(nodes, fetched, joined) && ProxyEdge(nodes) && IDs(asked) == old(IDs(asked))
      ensures e.None? ==> UsageLogsEdge(nodes, logs)
    {
      logs := [];
      IDsMeaning(asked);
      if withUsageLogs.Some? {
        var outcome, l := LoadUsageLogs(nodes, withUsageLogs.value);
        logs := l;
        IDsMeaning(asked);
        if !outcome.Loaded? {
          return Some(outcome.AsError()), logs;
        }
      }
      return None, logs;
    }

    method RunAccountGroups(nodes: seq<Account>, ghost ids: seq<int>, ghost fs: seq<LinkColumn>,
                            ghost asked: seq<Account>, ghost fetched: seq<Group>, ghost joined: seq<Group>,
                            ghost logs: seq<UsageLog>)
      returns (e: Option<Error>, ghost links: seq<AccountGroup>, ghost accounts: seq<Account>, ghost groups: seq<Group>)
      requires ids == IDs(nodes) && forall x :: x in nodes ==> x.accountGroups == []
      requires fs == LinkFields() && asked == AnsweredBy(ids, fs)
      requires GroupsEdge(nodes, fetched, joined) && ProxyEdge(nodes) && UsageLogsEdge(nodes, logs)
      modifies nodes`accountGroups, LinkQueries()`fields
      ensures e == LinksError(ids, fs, old(IDs(asked))) && LinkFields() == FieldsSent(fs)
      ensures GroupsEdge(nodes, fetched, joined) && ProxyEdge(nodes) && UsageLogsEdge(nodes, logs)
      ensures e.None? ==> AccountGroupsEdge(nodes, fs, links, accounts, groups)
    {
      links, accounts, groups := [], [], [];
      if withAccountGroups.Some? {
        var outcome, l, a, g := LoadAccountGroups(nodes, withAccountGroups.value);
        links, accounts, groups := l, a, g;
        if !outcome.Loaded? {
          return Some(outcome.AsError()), links, accounts, groups;
        }
      }
      return None, links, accounts, groups;
    }

    /** The two edges that are not lists of rows with the account's id. */
    method RunManyToX(nodes: seq<Account>, ghost ids: seq<int>, ghost keys: seq<Option<int>>, ghost asked: seq<Account>)
      returns (e: Option<Error>, ghost fetched: seq<Group>, ghost joined: seq<Group>)
      requires ids == IDs(nodes) && (withProxy.Some? ==> keys == ProxyKeys(nodes))
      requires forall x :: x in nodes ==> x.groups == [] && x.proxy == null
      modifies nodes`groups, nodes`proxy
      ensures e == if GroupsError(ids, fetched).Some? then GroupsError(ids, fetched) else ProxyError(keys)
      ensures GroupsFetched(ids, fetched)
      ensures e.None? ==> GroupsEdge(nodes, fetched, joined) && ProxyEdge(nodes)
      ensures IDs(asked) == old(IDs(asked))
    {
      IDsMeaning(asked);
      e, fetched, joined := RunGroups(nodes, ids);
      if e.None? {
        e := RunProxy(nodes, keys, fetched, joined);
      }
      IDsMeaning(asked);
    }

    /** The two lists of rows with the account's id. */
    method RunOneToMany(nodes: seq<Account>, ghost ids: seq<int>, ghost asked: seq<Account>, ghost f: EdgeState,
                        ghost fetched: seq<Group>, ghost joined: seq<Group>)
      returns (e: Option<Error>, ghost logs: seq<UsageLog>, ghost links: seq<AccountGroup>,
               ghost accounts: seq<Account>, ghost groups: seq<Group>)
      requires ids == IDs(nodes) && forall x :: x in nodes ==> x.usageLogs == [] && x.accountGroups == []
      requires asked == AnsweredBy(ids, f.linkFields) && f == EdgeState(LogFields(), LinkFields(), IDs(asked))
      requires GroupsEdge(nodes, fetched, joined) && ProxyEdge(nodes)
      modifies nodes`usageLogs, nodes`accountGroups, LogQueries()`fields, LinkQueries()`fields
      ensures var l := LogsError(ids, f.logFields);
              && e == (if l.Some? then l else LinksError(ids, f.linkFields, f.answered))
              && LogFields() == LogFieldsSent(f.logFields)
              && LinkFields() == if l.Some? then f.linkFields else FieldsSent(f.linkFields)
      ensures e.None? ==> EdgesLoaded(nodes, fetched, joined, logs, f.linkFields, links, accounts, groups)
    {
      links, accounts, groups := [], [], [];
      e, logs := RunUsageLogs(nodes, ids, f.logFields, fetched, joined, asked);
      if e.None? {
        e, links, accounts, groups := RunAccountGroups(nodes, ids, f.linkFields, asked, fetched, joined, logs);
      }
    }

    /** The four loaders, in order; the first error ends the run. */
    method LoadEdges(nodes: seq<Account>, ghost ids: seq<int>, ghost keys: seq<Option<int>>, ghost asked: seq<Account>,
                     ghost f: EdgeState)
      returns (e: Option<Error>, ghost fetched: seq<Group>, ghost joined: seq<Group>,
               ghost logs: seq<UsageLog>, ghost links: seq<AccountGroup>, ghost accounts: seq<Account>,
               ghost groups: seq<Group>)
      requires ids == IDs(nodes) && (withProxy.Some? ==> keys == ProxyKeys(nodes))
      requires forall x :: x in nodes ==> Unloaded(x)
      requires asked == AnsweredBy(ids, f.linkFields) && f == EdgeState(LogFields(), LinkFields(), IDs(asked))
      modifies nodes`groups, nodes`proxy, nodes`usageLogs, nodes`accountGroups, LogQueries()`fields
      modifies LinkQueries()`fields
      ensures e == EdgesError(ids, keys, fetched, f) && GroupsFetched(ids, fetched)
      ensures (LogFields(), LinkFields()) == FieldsAfter(ids, keys, fetched, f)
      ensures e.None? ==> EdgesLoaded(nodes, fetched, joined, logs, f.linkFields, links, accounts, groups)
    {
      logs, links, accounts, groups := [], [], [], [];
      e, fetched, joined := RunManyToX(nodes, ids, keys, asked);
      if e.None? {
        e, logs, links, accounts, groups := RunOneToMany(nodes, ids, asked, f, fetched, joined);
      }
    }

    /** Loads the edges of scanned accounts, of which the scanned part stays as it is. */
    method LoadScanned(nodes: seq<Account>, ghost found: seq<Row>, ghost asked: seq<Account>, ghost f: EdgeState)
      returns (e: Option<Error>, ghost fetched: seq<Group>, ghost joined: seq<Group>,
               ghost logs: seq<UsageLog>, ghost links: seq<AccountGroup>, ghost accounts: seq<Account>,
               ghost groups: seq<Group>)
      requires RowsScanned(nodes, found) && forall x :: x in nodes ==> Unloaded(x)
      requires asked == AnsweredBy(RowIDs(found), f.linkFields) && f == EdgeState(LogFields(), LinkFields(), IDs(asked))
      modifies nodes`groups, nodes`proxy, nodes`usageLogs, nodes`accountGroups, LogQueries()`fields
      modifies LinkQueries()`fields
      ensures e == EdgesError(RowIDs(found), RowProxyKeys(found), fetched, f)
      ensures GroupsFetched(RowIDs(found), fetched)
      ensures (LogFields(), LinkFields()) == FieldsAfter(RowIDs(found), RowProxyKeys(found), fetched, f)
      ensures e.None? ==> EdgesLoaded(nodes, fetched, joined, logs, f.linkFields, links, accounts, groups)
      ensures RowsScanned(nodes, found) && forall x :: x in nodes ==> x.loadedTypes == Loaded()
    {
      RowsScannedKeys(nodes, found);
      ghost var ids, keys := RowIDs(found), RowProxyKeys(found);
      e, fetched, joined, logs, links, accounts, groups := LoadEdges(nodes, ids, keys, asked, f);
      assert RowsScanned(nodes, found);
    }

    /** The edge queries are asked: every row decoded, none failed, and there is one. */
    ghost predicate AsksEdges()
      reads this`fields
    {
      AllDecodable(rows) && rowsError.None? && rows != []
    }

    /** Runs the query. It ends with an error if a streamed value cannot be decoded, else if the stream broke off, else
        with that of the first edge that fails. On success every account holds its decoded row, every requested edge of
        every account is the join of the accounts' ids and proxy keys with the answers of the edge queries, and every
        other edge is empty. An empty answer asks no edge query. */
    method SqlAll()
      returns (r: Result<seq<Account>, Error>, ghost fetched: seq<Group>, ghost joined: seq<Group>,
               ghost logs: seq<UsageLog>, ghost links: seq<AccountGroup>, ghost accounts: seq<Account>,
               ghost groups: seq<Group>)
      modifies LogQueries()`fields, LinkQueries()`fields
      ensures !AllDecodable(rows) ==> r == Err(Undecodable)
      ensures AllDecodable(rows) && rowsError.Some? ==> r == Err(rowsError.value)
      ensures AllDecodable(rows) && rowsError.None? && rows == [] ==> r == Ok([])
      ensures !AsksEdges() ==> LogFields() == old(LogFields()) && LinkFields() == old(LinkFields())
      ensures AsksEdges() ==>
                match EdgesError(RowIDs(rows), RowProxyKeys(rows), fetched, old(Found(RowIDs(rows))))
                case Some(e) => r == Err(e)
                case None => r.Ok?
      ensures AsksEdges() ==> GroupsFetched(RowIDs(rows), fetched)
      ensures AsksEdges() ==>
                (LogFields(), LinkFields()) ==
                  FieldsAfter(RowIDs(rows), RowProxyKeys(rows), fetched, old(Found(RowIDs(rows))))
      ensures r.Ok? ==> rowsError.None? && RowsScanned(r.value, rows)
      ensures r.Ok? ==> forall i :: 0 <= i < |rows| ==> HoldsRow(rows[i], r.value[i])
      ensures r.Ok? && fields == [] ==> forall i, c: Column ::
                0 <= i < |rows| && !c.ID? && !c.ProxyID? && !c.Other? && rows[i](c).Some? ==>
                  c in r.value[i].fields && r.value[i].fields[c] == rows[i](c).value
      ensures r.Ok? ==> forall x :: x in r.value ==> fresh(x) && x.loadedTypes == Loaded()
      ensures r.Ok? && r.value != [] ==>
                EdgesLoaded(r.value, fetched, joined, logs, old(LinkFields()), links, accounts, groups)
    {
      fetched, joined, logs, links, accounts, groups := [], [], [], [], [], [];
      ghost var ids := RowIDs(rows);
      ghost var f := Found(ids);
      ghost var asked := AnsweredBy(ids, f.linkFields);
      var scanned := ScanFresh(rows, asked);
      if scanned.Err? {
        return Err(scanned.error), fetched, joined, logs, links, accounts, groups;
      }
      if rowsError.Some? {
        return Err(rowsError.value), fetched, joined, logs, links, accounts, groups;
      }
      var nodes := scanned.value;
      assert forall i :: 0 <= i < |nodes| ==> nodes[i] in nodes;
      if nodes == [] {
        return Ok(nodes), fetched, joined, logs, links, accounts, groups;
      }
      var e;
      e, fetched, joined, logs, links, accounts, groups := LoadScanned(nodes, rows, asked, f);
      RowsHeld(nodes, rows);
      r := if e.Some? then Err(e.value) else Ok(nodes);
    }
  }
}
