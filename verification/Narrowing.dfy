/** Two runs of one account query that select different fields: they load the same edges and end with the same
    errors. */
module Narrowing {
  import opened Wrappers
  import opened Sequences
  import opened AccountColumns
  import opened Entities
  import opened EdgeSpecs
  import opened AccountGroupQueries
  import opened AccountQueries
  import opened AccountSqlAll
  import opened EdgeTheorems

  /** The two queries differ at most in the fields they select. */
  ghost predicate SameButFields(p: AccountQuery, q: AccountQuery) {
    && p.rows == q.rows && p.rowsError == q.rowsError && p.json == q.json && p.withGroups == q.withGroups
    && p.withProxy == q.withProxy && p.withUsageLogs == q.withUsageLogs && p.withAccountGroups == q.withAccountGroups
  }

  // ---------- equal contents; the objects of two runs are different ones ----------

  ghost predicate SameGroups(a: seq<Group>, b: seq<Group>) {
    |a| == |b| && forall i :: 0 <= i < |a| ==> a[i].id == b[i].id && a[i].detail == b[i].detail
  }

  ghost predicate SameLogs(a: seq<UsageLog>, b: seq<UsageLog>) {
    |a| == |b| && forall i :: 0 <= i < |a| ==> a[i].id == b[i].id && a[i].accountID == b[i].accountID
  }

  ghost predicate SameLinks(a: seq<AccountGroup>, b: seq<AccountGroup>)
    reads a`account, a`group, b`account, b`group
  {
    |a| == |b| && forall i :: 0 <= i < |a| ==>
      && a[i].accountID == b[i].accountID && a[i].groupID == b[i].groupID
      && a[i].account == b[i].account && a[i].group == b[i].group
  }

  // ---------- the joins depend on contents only ----------

  lemma {:induction false} JoinedAlike(a: seq<Group>, b: seq<Group>, rows: seq<JoinRow>, id: int)
    requires SameGroups(a, b)
    ensures SameGroups(JoinedGroups(a, rows, id), JoinedGroups(b, rows, id))
  {
    if a != [] {
      JoinedAlike(a[..|a| - 1], b[..|b| - 1], rows, id);
    }
  }

  lemma {:induction false} LogsAlike(a: seq<UsageLog>, b: seq<UsageLog>, id: int)
    requires SameLogs(a, b)
    ensures SameLogs(LogsOf(a, id), LogsOf(b, id))
  {
    if a != [] {
      LogsAlike(a[..|a| - 1], b[..|b| - 1], id);
    }
  }

  lemma {:induction false} LinksAlike(a: seq<AccountGroup>, b: seq<AccountGroup>, id: int)
    requires SameLinks(a, b)
    ensures SameLinks(LinksOf(a, id), LinksOf(b, id))
  {
    if a != [] {
      LinksAlike(a[..|a| - 1], b[..|b| - 1], id);
    }
  }

  lemma {:induction false} OutcomeAlike(a: seq<Group>, b: seq<Group>, rows: seq<JoinRow>, ids: seq<int>)
    requires SameGroups(a, b)
    ensures JoinOutcome(a, rows, ids) == JoinOutcome(b, rows, ids)
    decreases |a|
  {
    if a != [] {
      OutcomeAlike(a[1..], b[1..], rows, ids);
    }
  }

  lemma FetchedAlike(a: seq<Group>, b: seq<Group>, rows: seq<JoinRow>)
    requires Fetched(a, rows) && Fetched(b, rows)
    ensures SameGroups(a, b)
  {
  }

  lemma LinksFetchedAlike(query: AccountGroupQuery, fs: seq<LinkColumn>, gs: seq<LinkColumn>, rows: seq<LinkRow>,
                          a: seq<AccountGroup>, aAccounts: seq<Account>, aGroups: seq<Group>,
                          b: seq<AccountGroup>, bAccounts: seq<Account>, bGroups: seq<Group>)
    requires FieldsSent(fs) == FieldsSent(gs)
    requires LinksFetched(query, fs, rows, a, aAccounts, aGroups) &&
             LinksFetched(query, gs, rows, b, bAccounts, bGroups)
    ensures SameLinks(a, b)
  {
    assert AccountKeys(a) == AccountKeys(b);
    assert GroupKeys(a) == GroupKeys(b);
    forall i | 0 <= i < |a|
      ensures a[i].account == b[i].account && a[i].group == b[i].group
    {
      assert a[i] in a && b[i] in b;
    }
  }

  lemma OwnersAlike(a: seq<Account>, b: seq<Account>, i: nat)
    requires NoDup(a) && NoDup(b) && IDs(a) == IDs(b) && i < |a| == |b|
    ensures Owner(a, a[i]) <==> Owner(b, b[i])
  {
    IDsMeaning(a);
    IDsMeaning(b);
    OwnerIsLast(a, i);
    OwnerIsLast(b, i);
    assert forall j :: 0 <= j < |a| ==> a[j].id == IDs(a)[j] && b[j].id == IDs(b)[j];
  }

  // ---------- the edges of two runs ----------

  /** The edge queries are sent with the same fields, as they are on successive runs, and answer the same accounts. */
  ghost predicate SentAlike(f: EdgeState, g: EdgeState) {
    && LogFieldsSent(f.logFields) == LogFieldsSent(g.logFields) && FieldsSent(f.linkFields) == FieldsSent(g.linkFields)
    && f.answered == g.answered
  }

  /** The accounts at position i carry the same edges. */
  ghost predicate SameEdges(a: Account, b: Account)
    reads a, b, a.accountGroups`account, a.accountGroups`group, b.accountGroups`account, b.accountGroups`group
  {
    && SameGroups(a.groups, b.groups) && a.proxy == b.proxy && SameLogs(a.usageLogs, b.usageLogs)
    && SameLinks(a.accountGroups, b.accountGroups)
  }

  /** What a run returns and leaves behind, as `AccountQuery.SqlAll` promises it; `before` is what it found in its edge
      queries. */
  datatype Run = Run(before: EdgeState, nodes: seq<Account>, fetched: seq<Group>, joined: seq<Group>,
                     logs: seq<UsageLog>, links: seq<AccountGroup>, accounts: seq<Account>, groups: seq<Group>)

  ghost predicate Ran(q: AccountQuery, r: Run)
    reads r.nodes`id, r.nodes`proxyID, r.nodes`groups, r.nodes`proxy, r.nodes`usageLogs, r.nodes`accountGroups
    reads r.links`account, r.links`group, r.accounts`id
  {
    && KeysScanned(r.nodes, q.rows, q.withProxy.Some?)
    && (r.nodes != [] ==>
          q.EdgesLoaded(r.nodes, r.fetched, r.joined, r.logs, r.before.linkFields, r.links, r.accounts, r.groups))
  }

  lemma GroupsEdgeAlike(p: AccountQuery, r: Run, q: AccountQuery, s: Run, i: nat)
    requires SameButFields(p, q) && Ran(p, r) && Ran(q, s) && i < |r.nodes| && |r.nodes| == |s.nodes|
    requires IDs(r.nodes) == IDs(s.nodes)
    requires p.withGroups.Some? && SameGroups(r.fetched, s.fetched) ==> SameGroups(r.joined, s.joined)
    ensures SameGroups(r.nodes[i].groups, s.nodes[i].groups)
  {
    var a, b := r.nodes[i], s.nodes[i];
    assert a in r.nodes && b in s.nodes;
    if p.withGroups.Some? {
      var rows := p.withGroups.value.Streamed(IDs(r.nodes));
      FetchedAlike(r.fetched, s.fetched, rows);
      OwnersAlike(r.nodes, s.nodes, i);
      JoinedAlike(r.joined, s.joined, rows, a.id);
    }
  }

  lemma ProxyEdgeAlike(p: AccountQuery, r: Run, q: AccountQuery, s: Run, i: nat)
    requires SameButFields(p, q) && Ran(p, r) && Ran(q, s) && i < |r.nodes| && |r.nodes| == |s.nodes|
    requires p.withProxy.Some? ==> ProxyKeys(r.nodes) == ProxyKeys(s.nodes)
    ensures r.nodes[i].proxy == s.nodes[i].proxy
  {
    var a, b := r.nodes[i], s.nodes[i];
    assert a in r.nodes && b in s.nodes;
    if p.withProxy.Some? {
      assert ProxyKeys(r.nodes)[i] == a.proxyID && ProxyKeys(s.nodes)[i] == b.proxyID;
    }
  }

  lemma ListEdgesAlike(p: AccountQuery, r: Run, q: AccountQuery, s: Run, i: nat)
    requires SameButFields(p, q) && Ran(p, r) && Ran(q, s) && i < |r.nodes| && |r.nodes| == |s.nodes|
    requires IDs(r.nodes) == IDs(s.nodes) && SentAlike(r.before, s.before)
    ensures SameLogs(r.nodes[i].usageLogs, s.nodes[i].usageLogs)
    ensures SameLinks(r.nodes[i].accountGroups, s.nodes[i].accountGroups)
  {
    var a, b := r.nodes[i], s.nodes[i];
    assert a in r.nodes && b in s.nodes;
    OwnersAlike(r.nodes, s.nodes, i);
    if p.withUsageLogs.Some? {
      LogsAlike(r.logs, s.logs, a.id);
    }
    if p.withAccountGroups.Some? {
      var query := p.withAccountGroups.value;
      LinksFetchedAlike(query, r.before.linkFields, s.before.linkFields, query.rows(IDs(r.nodes)).value,
                        r.links, r.accounts, r.groups, s.links, s.accounts, s.groups);
      LinksAlike(r.links, s.links, a.id);
    }
  }

  /** Selecting other fields never changes the loaded edges. Two successful runs on the same rows and the same answers
      give the accounts of each row the same groups, the same proxy, the same logs and the same join entities, provided
      that the interceptors of the groups query treat groups with the same columns alike. */
  lemma NarrowingKeepsEdges(p: AccountQuery, r: Run, q: AccountQuery, s: Run)
    requires SameButFields(p, q) && Ran(p, r) && Ran(q, s) && SentAlike(r.before, s.before)
    requires p.withGroups.Some? && SameGroups(r.fetched, s.fetched) ==> SameGroups(r.joined, s.joined)
    ensures |r.nodes| == |s.nodes|
    ensures forall i :: 0 <= i < |r.nodes| ==> r.nodes[i].id == s.nodes[i].id && SameEdges(r.nodes[i], s.nodes[i])
  {
    ScannedKeysAreRowKeys(r.nodes, p.rows, p.withProxy.Some?);
    ScannedKeysAreRowKeys(s.nodes, p.rows, p.withProxy.Some?);
    forall i | 0 <= i < |r.nodes|
      ensures r.nodes[i].id == s.nodes[i].id && SameEdges(r.nodes[i], s.nodes[i])
    {
      assert IDs(r.nodes)[i] == r.nodes[i].id && IDs(s.nodes)[i] == s.nodes[i].id by {
        IDsMeaning(r.nodes);
        IDsMeaning(s.nodes);
      }
      GroupsEdgeAlike(p, r, q, s, i);
      ProxyEdgeAlike(p, r, q, s, i);
      ListEdgesAlike(p, r, q, s, i);
    }
  }

  // ---------- the errors of two runs ----------

  /** The interceptors hand on the same for both lists of groups. */
  ghost predicate HandedAlike(query: GroupQuery, ids: seq<int>, a: seq<Group>, b: seq<Group>) {
    match query.Handed(ids, a)
    case Err(e) => query.Handed(ids, b) == Err(e)
    case Ok(ns) => query.Handed(ids, b).Ok? && SameGroups(ns, query.Handed(ids, b).value)
  }

  /** The interceptors of the groups query do not tell apart what two runs fetched, if it has the same columns. */
  ghost predicate Indifferent(q: AccountQuery, a: seq<Group>, b: seq<Group>) {
    q.withGroups.Some? && SameGroups(a, b) ==> HandedAlike(q.withGroups.value, RowIDs(q.rows), a, b)
  }

  /** Selecting other fields does not change with which error the edges fail, either. */
  lemma NarrowingKeepsErrors(p: AccountQuery, q: AccountQuery, keys: seq<Option<int>>, a: seq<Group>, b: seq<Group>,
                             f: EdgeState, g: EdgeState)
    requires SameButFields(p, q) && SentAlike(f, g) && Indifferent(p, a, b)
    requires p.GroupsFetched(RowIDs(p.rows), a) && q.GroupsFetched(RowIDs(p.rows), b)
    ensures p.EdgesError(RowIDs(p.rows), keys, a, f) == q.EdgesError(RowIDs(p.rows), keys, b, g)
  {
    if p.withGroups.Some? && p.withGroups.value.prepareError.None? {
      var query, ids := p.withGroups.value, RowIDs(p.rows);
      FetchedAlike(a, b, query.Streamed(ids));
      if query.Handed(ids, a).Ok? {
        OutcomeAlike(query.Handed(ids, a).value, query.Handed(ids, b).value, query.Streamed(ids), ids);
      }
    }
  }

  // ---------- two runs, one after the other ----------

  /** How a run that asks its edge queries ends. */
  ghost predicate Ended(q: AccountQuery, r: Run, b: Result<seq<Account>, Error>) {
    && q.GroupsFetched(RowIDs(q.rows), r.fetched)
    && match q.EdgesError(RowIDs(q.rows), RowProxyKeys(q.rows), r.fetched, r.before)
       case Some(e) => b == Err(e)
       case None => b.Ok?
  }

  /** One run. Whatever its outcome, a further run finds edge queries that are sent alike. */
  method RunOnce(q: AccountQuery, ghost asked: seq<Account>) returns (b: Result<seq<Account>, Error>, ghost s: Run)
    requires asked == q.AnsweredBy(RowIDs(q.rows), q.LinkFields())
    modifies q.LogQueries()`fields, q.LinkQueries()`fields
    ensures b.Ok? ==> Ran(q, s) && s.nodes == b.value && q.AllDecodable(q.rows) && q.rowsError.None?
    ensures q.AllDecodable(q.rows) && q.rowsError.None? && q.rows == [] ==> b == Ok([])
    ensures q.AsksEdges() ==> Ended(q, s, b)
    ensures s.before == old(q.Found(RowIDs(q.rows))) && IDs(asked) == old(IDs(asked))
    ensures FieldsSent(q.LinkFields()) == FieldsSent(old(q.LinkFields()))
    ensures LogFieldsSent(q.LogFields()) == LogFieldsSent(old(q.LogFields()))
  {
    ghost var ids := RowIDs(q.rows);
    ghost var f := q.Found(ids);
    ghost var fetched, joined, logs, links, accounts, groups;
    IDsMeaning(asked);
    b, fetched, joined, logs, links, accounts, groups := q.SqlAll();
    IDsMeaning(asked);
    q.SentAgain(ids, RowProxyKeys(q.rows), fetched, f);
    ghost var nodes := if b.Ok? then b.value else [];
    if b.Ok? {
      q.RowsScannedKeys(nodes, q.rows);
    }
    s := Run(f, nodes, fetched, joined, logs, links, accounts, groups);
  }

  /** A second run leaves the accounts of a successful first one alone. */
  method RunAgain(q: AccountQuery, ghost asked: seq<Account>, ghost p: AccountQuery, ghost ok: bool, ghost r: Run)
    returns (b: Result<seq<Account>, Error>, ghost s: Run)
    requires asked == q.AnsweredBy(RowIDs(q.rows), q.LinkFields()) && (ok ==> Ran(p, r))
    modifies q.LogQueries()`fields, q.LinkQueries()`fields
    ensures ok ==> Ran(p, r)
    ensures b.Ok? ==> Ran(q, s) && s.nodes == b.value && q.AllDecodable(q.rows) && q.rowsError.None?
    ensures q.AllDecodable(q.rows) && q.rowsError.None? && q.rows == [] ==> b == Ok([])
    ensures q.AsksEdges() ==> Ended(q, s, b)
    ensures s.before == old(q.Found(RowIDs(q.rows)))
  {
    b, s := RunOnce(q, asked);
  }

  /** Two runs, one after the other, of queries that select different fields and share their edge queries, under
      interceptors that do not tell them apart. If both decode their rows they end alike: both succeed, or both fail
      with the same error. If both succeed they return accounts with the same ids and the same edges. A query without a
      narrowed selection that succeeds makes every narrowed one succeed. */
  method RunTwice(p: AccountQuery, q: AccountQuery)
    returns (a: Result<seq<Account>, Error>, b: Result<seq<Account>, Error>, ghost r: Run, ghost s: Run)
    requires SameButFields(p, q)
    modifies p.LogQueries()`fields, p.LinkQueries()`fields
    ensures Indifferent(p, r.fetched, s.fetched) && p.AsksEdges() && q.AsksEdges() ==>
              (a.Ok? <==> b.Ok?) && (a.Err? ==> b == Err(a.error))
    ensures Indifferent(p, r.fetched, s.fetched) && a.Ok? && b.Ok? ==>
              |a.value| == |b.value| &&
              forall i :: 0 <= i < |a.value| ==> a.value[i].id == b.value[i].id && SameEdges(a.value[i], b.value[i])
    ensures Indifferent(p, r.fetched, s.fetched) && p.fields == [] && a.Ok? ==> b.Ok?
  {
    ghost var ids := RowIDs(p.rows);
    ghost var asked := p.AnsweredBy(ids, p.LinkFields());
    a, r := RunOnce(p, asked);
    b, s := RunAgain(q, asked, p, a.Ok?, r);
    TwoRunsEndAlike(p, r, a, q, s, b);
  }

  lemma TwoRunsEndAlike(p: AccountQuery, r: Run, a: Result<seq<Account>, Error>,
                        q: AccountQuery, s: Run, b: Result<seq<Account>, Error>)
    requires SameButFields(p, q) && SentAlike(r.before, s.before)
    requires a.Ok? ==> Ran(p, r) && r.nodes == a.value && p.AllDecodable(p.rows) && p.rowsError.None?
    requires b.Ok? ==> Ran(q, s) && s.nodes == b.value
    requires q.AllDecodable(q.rows) && q.rowsError.None? && q.rows == [] ==> b == Ok([])
    requires (p.AsksEdges() ==> Ended(p, r, a)) && (q.AsksEdges() ==> Ended(q, s, b))
    ensures Indifferent(p, r.fetched, s.fetched) && p.AsksEdges() && q.AsksEdges() ==>
              (a.Ok? <==> b.Ok?) && (a.Err? ==> b == Err(a.error))
    ensures Indifferent(p, r.fetched, s.fetched) && a.Ok? && b.Ok? ==>
              |a.value| == |b.value| &&
              forall i :: 0 <= i < |a.value| ==> a.value[i].id == b.value[i].id && SameEdges(a.value[i], b.value[i])
    ensures Indifferent(p, r.fetched, s.fetched) && p.fields == [] && a.Ok? ==> b.Ok?
  {
    if Indifferent(p, r.fetched, s.fetched) {
      if p.AsksEdges() && q.AsksEdges() {
        NarrowingKeepsErrors(p, q, RowProxyKeys(p.rows), r.fetched, s.fetched, r.before, s.before);
      }
      if a.Ok? && b.Ok? && p.rows != [] {
        JoinedFromHanded(p, r, q, s);
        NarrowingKeepsEdges(p, r, q, s);
      }
      if p.fields == [] && a.Ok? {
        NarrowingKeepsDecodable(p, q, p.rows);
      }
    }
  }

  /** Indifferent interceptors hand on the same groups to two successful runs. */
  lemma JoinedFromHanded(p: AccountQuery, r: Run, q: AccountQuery, s: Run)
    requires SameButFields(p, q) && Ran(p, r) && Ran(q, s) && Indifferent(p, r.fetched, s.fetched) && p.rows != []
    ensures p.withGroups.Some? && SameGroups(r.fetched, s.fetched) ==> SameGroups(r.joined, s.joined)
  {
    ScannedKeysAreRowKeys(r.nodes, p.rows, p.withProxy.Some?);
    ScannedKeysAreRowKeys(s.nodes, p.rows, p.withProxy.Some?);
  }

  // ---------- decoding ----------

  predicate JSONColumn(c: Column) {
    c.Credentials? || c.Extra?
  }

  lemma JSONSelected(fields: seq<Column>, withProxy: bool, c: Column)
    requires JSONColumn(c)
    ensures c in NodeColumns(fields, withProxy) <==> fields == [] || c in fields
  {
    NodeColumnsMeaning(fields, withProxy);
  }

  /** A JSON column is decoded exactly if it is selected. */
  lemma DecodableIff(q: AccountQuery, found: seq<Row>)
    ensures q.AllDecodable(found) <==>
            forall i, c :: 0 <= i < |found| && JSONColumn(c) && (q.fields == [] || c in q.fields) ==>
              Decodable(c, found[i](c), q.json)
  {
    forall i | 0 <= i < |found|
      ensures RowDecodable(q.Columns(), found[i], q.json) <==>
              forall c :: JSONColumn(c) && (q.fields == [] || c in q.fields) ==> Decodable(c, found[i](c), q.json)
    {
      JSONSelected(q.fields, q.withProxy.Some?, Credentials);
      JSONSelected(q.fields, q.withProxy.Some?, Extra);
    }
  }

  /** What can be decoded in full can be decoded in part. */
  lemma NarrowingKeepsDecodable(p: AccountQuery, q: AccountQuery, found: seq<Row>)
    requires SameButFields(p, q) && p.fields == [] && p.AllDecodable(found)
    ensures q.AllDecodable(found)
  {
    DecodableIff(p, found);
    DecodableIff(q, found);
  }

  /** The converse fails: with a payload that does not decode, the full selection fails and one of names succeeds. */
  lemma NarrowingHidesPayload(p: AccountQuery, q: AccountQuery)
    requires SameButFields(p, q) && p.fields == [] && q.fields == [Name] && !p.json(0)
    ensures var row: Row := c => if c == Credentials then Some(0) else None;
            !p.AllDecodable([row]) && q.AllDecodable([row])
  {
    var row: Row := c => if c == Credentials then Some(0) else None;
    DecodableIff(p, [row]);
    DecodableIff(q, [row]);
    assert !Decodable(Credentials, [row][0](Credentials), p.json);
  }
}
