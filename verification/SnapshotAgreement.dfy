/** The loaders agree with each other on one snapshot of the database: the many-to-many edge is the two-step route
    through the join entity, and the one-to-many and many-to-one edges of the join table are inverse relations. */
module SnapshotAgreement {
  import opened Wrappers
  import opened Sequences
  import opened Entities
  import opened EdgeSpecs
  import opened KeyGroups
  import opened AccountGroupQueries
  import opened AccountQueries
  import opened AccountSqlAll
  import opened EdgeTheorems

  /** The rows of the join table, and the ids of the two tables it joins. */
  datatype Snapshot = Snapshot(links: seq<LinkRow>, accounts: set<int>, groups: set<int>) {
    /** The pair of keys is unique, and both keys are foreign keys. */
    ghost predicate Consistent() {
      && NoDup(links)
      && forall l :: l in links ==> l.accountID in accounts && l.groupID in groups
    }
  }

  // ---------- how a database answers the unfiltered edge queries ----------

  ghost predicate AnswersJoin(s: Snapshot, ids: seq<int>, rows: seq<JoinRow>) {
    forall a, g :: Linked(rows, a, g) <==> a in ids && LinkRow(a, g) in s.links && g in s.groups
  }

  ghost predicate AnswersLinks(s: Snapshot, ids: seq<int>, rows: seq<LinkRow>) {
    && NoDup(rows)
    && forall l :: l in rows <==> l in s.links && l.accountID in ids
  }

  ghost predicate AnswersGroups(s: Snapshot, ids: seq<int>, groups: seq<Group>) {
    forall g :: g in GroupIDs(groups) <==> g in ids && g in s.groups
  }

  ghost predicate AnswersAccounts(s: Snapshot, ids: seq<int>, accounts: seq<Account>)
    reads accounts`id
  {
    forall a :: a in IDs(accounts) <==> a in ids && a in s.accounts
  }

  /** The join entities carry the keys of the rows they were scanned from. */
  ghost predicate CarryKeys(links: seq<AccountGroup>, rows: seq<LinkRow>) {
    && |links| == |rows|
    && forall i :: 0 <= i < |links| ==> LinkRow(links[i].accountID, links[i].groupID) == rows[i]
  }

  // ---------- the one-to-many filter ----------

  lemma {:induction false} LinksOfMeaning(links: seq<AccountGroup>, a: int)
    ensures forall x :: x in LinksOf(links, a) <==> x in links && x.accountID == a
    ensures forall i :: 0 <= i < |LinksOf(links, a)| ==> LinksOf(links, a)[i].accountID == a
  {
    if links != [] {
      var n := |links| - 1;
      LinksOfMeaning(links[..n], a);
      assert links == links[..n] + [links[n]];
    }
  }

  /** Unique key pairs leave no repeated group in one account's list. */
  lemma {:induction false} LinksOfDistinct(links: seq<AccountGroup>, rows: seq<LinkRow>, a: int)
    requires CarryKeys(links, rows) && NoDup(rows)
    ensures forall i :: 0 <= i < |LinksOf(links, a)| ==> LinkRow(a, LinksOf(links, a)[i].groupID) in rows
    ensures forall i, j :: 0 <= i < j < |LinksOf(links, a)| ==>
              LinksOf(links, a)[i].groupID != LinksOf(links, a)[j].groupID
  {
    if links != [] {
      var n := |links| - 1;
      LinksOfDistinct(links[..n], rows[..n], a);
      assert rows == rows[..n] + [rows[n]];
      assert rows[n] !in rows[..n];
    }
  }

  lemma KeyAsked(links: seq<AccountGroup>, x: AccountGroup)
    requires x in links
    ensures x.groupID in FirstSeen(Somes(GroupKeys(links))) && x.accountID in FirstSeen(Somes(AccountKeys(links)))
  {
    var gs, as_ := GroupKeys(links), AccountKeys(links);
    SomesMeaning(gs);
    SomesMeaning(as_);
    FirstSeenMeaning(Somes(gs));
    FirstSeenMeaning(Somes(as_));
    var i :| 0 <= i < |links| && links[i] == x;
    assert gs[i] == Some(x.groupID) && as_[i] == Some(x.accountID);
    assert Some(x.groupID) in gs && Some(x.accountID) in as_;
  }

  lemma RowOf(links: seq<AccountGroup>, rows: seq<LinkRow>, x: AccountGroup)
    requires CarryKeys(links, rows) && x in links
    ensures LinkRow(x.accountID, x.groupID) in rows
  {
    var i :| 0 <= i < |links| && links[i] == x;
  }

  /** Every join entity's group edge resolves to the group it names. */
  lemma GroupsResolve(s: Snapshot, ids: seq<int>, links: seq<AccountGroup>, rows: seq<LinkRow>, groups: seq<Group>,
                      x: AccountGroup)
    requires s.Consistent() && AnswersLinks(s, ids, rows) && CarryKeys(links, rows)
    requires AnswersGroups(s, FirstSeen(Somes(GroupKeys(links))), groups)
    requires x in links && x.group == LastGroup(groups, x.groupID)
    ensures x.group != null && x.group.id == x.groupID
  {
    KeyAsked(links, x);
    RowOf(links, rows, x);
    LastGroupMeaning(groups, x.groupID);
    assert LinkRow(x.accountID, x.groupID) in s.links;
    assert x.groupID in GroupIDs(groups);
    var i :| 0 <= i < |groups| && GroupIDs(groups)[i] == x.groupID;
    assert groups[i] in groups;
  }

  lemma RoutesReachSameGroups(s: Snapshot, ids: seq<int>, fetched: seq<Group>, joinRows: seq<JoinRow>,
                              links: seq<AccountGroup>, linkRows: seq<LinkRow>, a: int, g: int)
    requires s.Consistent() && a in ids
    requires AnswersJoin(s, ids, joinRows) && Fetched(fetched, joinRows)
    requires AnswersLinks(s, ids, linkRows) && CarryKeys(links, linkRows)
    ensures g in GroupIDs(JoinedGroups(fetched, joinRows, a)) <==> exists x :: x in LinksOf(links, a) && x.groupID == g
  {
    JoinedIDs(fetched, joinRows, a, g);
    LinksOfMeaning(links, a);
    if LinkRow(a, g) in s.links {
      assert LinkRow(a, g) in linkRows;
      var i :| 0 <= i < |linkRows| && linkRows[i] == LinkRow(a, g);
      var x := links[i];
      assert x in links && x in LinksOf(links, a);
    }
    if x :| x in LinksOf(links, a) && x.groupID == g {
      RowOf(links, linkRows, x);
    }
  }

  /** On one consistent snapshot, loading groups directly and loading join entities with their groups give every
      account the same groups, without repetition on either route. */
  lemma RoutesAgree(s: Snapshot, nodes: seq<Account>, fetched: seq<Group>, joinRows: seq<JoinRow>,
                    links: seq<AccountGroup>, linkRows: seq<LinkRow>, groups: seq<Group>, a: Account)
    requires s.Consistent() && a in nodes
    requires AnswersJoin(s, IDs(nodes), joinRows) && Fetched(fetched, joinRows) &&
             GroupsLoaded(nodes, fetched, joinRows)
    requires AnswersLinks(s, IDs(nodes), linkRows) && CarryKeys(links, linkRows) && AccountGroupsLoaded(nodes, links)
    requires links != [] ==> AnswersGroups(s, FirstSeen(Somes(GroupKeys(links))), groups)
    requires forall x :: x in links ==> x.group == LastGroup(groups, x.groupID)
    ensures forall g :: g in GroupIDs(a.groups) <==>
              exists x :: x in a.accountGroups && x.group != null && x.group.id == g
    ensures NoDup(GroupIDs(a.groups))
    ensures forall i, j :: 0 <= i < j < |a.accountGroups| ==> a.accountGroups[i].groupID != a.accountGroups[j].groupID
    ensures forall x :: x in a.accountGroups ==> x.group != null && x.group.id == x.groupID
  {
    if Owner(nodes, a) {
      ByIDMeaning(nodes);
      LinksOfMeaning(links, a.id);
      LinksOfDistinct(links, linkRows, a.id);
      JoinIsNestedLoop(fetched, joinRows, a.id);
      forall x | x in a.accountGroups
        ensures x.group != null && x.group.id == x.groupID
      {
        GroupsResolve(s, IDs(nodes), links, linkRows, groups, x);
      }
      forall g
        ensures g in GroupIDs(a.groups) <==> exists x :: x in a.accountGroups && x.group != null && x.group.id == g
      {
        RoutesReachSameGroups(s, IDs(nodes), fetched, joinRows, links, linkRows, a.id, g);
      }
    }
  }

  /** The join entities carry the account keys of the rows they were scanned from; their group keys need not be
      selected. */
  ghost predicate CarryAccountKeys(links: seq<AccountGroup>, rows: seq<LinkRow>) {
    |links| == |rows| && forall i :: 0 <= i < |links| ==> links[i].accountID == rows[i].accountID
  }

  /** On one consistent snapshot a join entity is in an account's list exactly if its own account edge is an account
      with that id. */
  lemma InverseEdges(s: Snapshot, nodes: seq<Account>, links: seq<AccountGroup>, linkRows: seq<LinkRow>,
                     accounts: seq<Account>, a: Account, x: AccountGroup)
    requires s.Consistent() && Owner(nodes, a) && a in nodes && x in links
    requires AnswersLinks(s, IDs(nodes), linkRows) && CarryAccountKeys(links, linkRows) &&
             AccountGroupsLoaded(nodes, links)
    requires AnswersAccounts(s, FirstSeen(Somes(AccountKeys(links))), accounts)
    requires x.account == LastAccount(accounts, x.accountID)
    ensures x in a.accountGroups <==> x.account != null && x.account.id == a.id
  {
    LinksOfMeaning(links, a.id);
    LastAccountMeaning(accounts, x.accountID);
    IDsMeaning(accounts);
    KeyAsked(links, x);
    var k :| 0 <= k < |links| && links[k] == x;
    assert linkRows[k] in s.links;
    assert x.accountID in IDs(accounts);
    var i :| 0 <= i < |accounts| && IDs(accounts)[i] == x.accountID;
    assert accounts[i] in accounts;
  }

  // ---------- one query that asks for both edges ----------

  /** The groups edge query of an account query is answered from the snapshot and not intercepted. */
  ghost predicate GroupsFrom(s: Snapshot, query: GroupQuery, ids: seq<int>, fetched: seq<Group>) {
    query.Plain(ids, fetched) && AnswersJoin(s, ids, query.answer(ids).rows)
  }

  /** The join entity query is answered from the snapshot, its own edges included; `answered` are the ids of the
      accounts that its account edge answers. */
  ghost predicate LinksFrom(s: Snapshot, query: AccountGroupQuery, ids: seq<int>, fs: seq<LinkColumn>,
                            answered: seq<int>) {
    var asksGroups, asksAccounts := query.AskedGroups(ids, FieldsSent(fs)), query.AskedAccounts(ids, FieldsSent(fs));
    && (forall c :: c in fs ==> !c.LinkOther?)
    && query.rows(ids).Ok? && AnswersLinks(s, ids, query.rows(ids).value)
    && (query.withGroup.Some? ==>
          query.withGroup.value(asksGroups).Ok? &&
            AnswersGroups(s, asksGroups, query.withGroup.value(asksGroups).value))
    && (query.withAccount.Some? ==>
          && query.withAccount.value(asksAccounts).Ok?
          && forall a :: a in answered <==> a in asksAccounts && a in s.accounts)
  }

  /** Edge queries answered from a snapshot make their loaders succeed, consistent or not: no row has a foreign key
      that was not asked for. */
  lemma SnapshotLoads(s: Snapshot, q: AccountQuery, ids: seq<int>, fetched: seq<Group>, fs: seq<LinkColumn>,
                      answered: seq<int>)
    requires q.withGroups.Some? ==>
               GroupsFrom(s, q.withGroups.value, ids, fetched) && Fetched(fetched, q.withGroups.value.answer(ids).rows)
    requires q.withAccountGroups.Some? ==> LinksFrom(s, q.withAccountGroups.value, ids, fs, answered)
    ensures q.GroupsError(ids, fetched).None? && q.LinksError(ids, fs, answered).None?
  {
    if q.withGroups.Some? {
      var rows := q.withGroups.value.answer(ids).rows;
      FetchedOutcome(fetched, rows, ids);
      forall r | r in rows
        ensures r.accountID in ids
      {
        assert Linked(rows, r.accountID, r.groupID);
      }
    }
    if q.withAccountGroups.Some? {
      LinksLoad(s, q.withAccountGroups.value, ids, fs, answered);
    }
  }

  lemma LinksLoad(s: Snapshot, query: AccountGroupQuery, ids: seq<int>, fs: seq<LinkColumn>, answered: seq<int>)
    requires LinksFrom(s, query, ids, fs, answered)
    ensures LinksOutcome(query, ids, fs, answered).Loaded?
  {
    var rows := query.rows(ids).value;
    assert query.ErrorFor(ids, FieldsSent(fs), answered).None?;
    forall k | k in LinkRowKeys(rows)
      ensures k in ids
    {
      var i :| 0 <= i < |rows| && LinkRowKeys(rows)[i] == k;
      assert rows[i] in rows;
    }
  }

  /** The groups a join entity query asks for are those of its join entities. */
  lemma GroupsAsked(query: AccountGroupQuery, ids: seq<int>, fs: seq<LinkColumn>, links: seq<AccountGroup>,
                    accounts: seq<Account>, groups: seq<Group>)
    requires query.rows(ids).Ok? && LinksFetched(query, fs, query.rows(ids).value, links, accounts, groups)
    ensures query.AskedGroups(ids, FieldsSent(fs)) == FirstSeen(Somes(GroupKeys(links)))
  {
    assert GroupKeys(links) == GroupKeysOf(query.rows(ids).value, query.ColumnsFor(FieldsSent(fs)));
  }

  /** The two routes through one query: an account query that asks for groups and for join entities with their
      groups, answered from one consistent snapshot and not intercepted, gives every account the same groups on both
      routes, whatever fields any of its queries selects. */
  lemma QueryRoutesAgree(s: Snapshot, q: AccountQuery, nodes: seq<Account>, fetched: seq<Group>, joined: seq<Group>,
                         fs: seq<LinkColumn>, answered: seq<int>, links: seq<AccountGroup>, accounts: seq<Account>,
                         groups: seq<Group>, a: Account)
    requires s.Consistent() && a in nodes
    requires q.withGroups.Some? && GroupsFrom(s, q.withGroups.value, IDs(nodes), fetched)
    requires q.withAccountGroups.Some? && q.withAccountGroups.value.withGroup.Some?
    requires LinksFrom(s, q.withAccountGroups.value, IDs(nodes), fs, answered)
    requires q.GroupsEdge(nodes, fetched, joined) && q.AccountGroupsEdge(nodes, fs, links, accounts, groups)
    ensures forall g :: g in GroupIDs(a.groups) <==>
              exists x :: x in a.accountGroups && x.group != null && x.group.id == g
    ensures NoDup(GroupIDs(a.groups))
    ensures forall i, j :: 0 <= i < j < |a.accountGroups| ==> a.accountGroups[i].groupID != a.accountGroups[j].groupID
  {
    var query := q.withAccountGroups.value;
    GroupsAsked(query, IDs(nodes), fs, links, accounts, groups);
    RoutesAgree(s, nodes, fetched, q.withGroups.value.answer(IDs(nodes)).rows, links, query.rows(IDs(nodes)).value,
                groups, a);
  }

  /** The inverse edges of one query: when it asks for join entities with their accounts, answered from one consistent
      snapshot, a join entity is in an account's list exactly if its own account edge is an account with that id,
      whatever fields any of its queries selects. */
  lemma QueryInverseEdges(s: Snapshot, q: AccountQuery, nodes: seq<Account>, fs: seq<LinkColumn>,
                          links: seq<AccountGroup>, accounts: seq<Account>, groups: seq<Group>, a: Account,
                          x: AccountGroup)
    requires s.Consistent() && Owner(nodes, a) && a in nodes && x in links
    requires q.withAccountGroups.Some? && q.withAccountGroups.value.withAccount.Some?
    requires LinksFrom(s, q.withAccountGroups.value, IDs(nodes), fs, IDs(accounts))
    requires q.AccountGroupsEdge(nodes, fs, links, accounts, groups)
    ensures x in a.accountGroups <==> x.account != null && x.account.id == a.id
  {
    var query, ids := q.withAccountGroups.value, IDs(nodes);
    assert AccountKeys(links) == AccountKeysOf(query.rows(ids).value, query.ColumnsFor(FieldsSent(fs)));
    InverseEdges(s, nodes, links, query.rows(ids).value, accounts, a, x);
  }

  /** Both routes lead from the account to the same groups, without repetition. */
  ghost predicate Agree(a: Account)
    reads a, a.accountGroups`group
  {
    && (forall g :: g in GroupIDs(a.groups) <==> exists x :: x in a.accountGroups && x.group != null && x.group.id == g)
    && NoDup(GroupIDs(a.groups))
    && forall i, j :: 0 <= i < j < |a.accountGroups| ==> a.accountGroups[i].groupID != a.accountGroups[j].groupID
  }

  /** A whole run on a consistent snapshot, of a query that asks for groups and for join entities with their groups: if
      its rows decode, its interceptors leave the groups alone and its other edges do not fail, it succeeds, and both
      routes give every account the same groups. */
  method RunOnSnapshot(s: Snapshot, q: AccountQuery) returns (r: Result<seq<Account>, Error>, ghost fetched: seq<Group>)
    requires s.Consistent() && q.AsksEdges()
    requires q.withGroups.Some? && q.withAccountGroups.Some? && q.withAccountGroups.value.withGroup.Some?
    requires AnswersJoin(s, RowIDs(q.rows), q.withGroups.value.answer(RowIDs(q.rows)).rows)
    requires LinksFrom(s, q.withAccountGroups.value, RowIDs(q.rows), q.LinkFields(), q.Found(RowIDs(q.rows)).answered)
    requires q.ProxyError(RowProxyKeys(q.rows)).None? && q.LogsError(RowIDs(q.rows), q.LogFields()).None?
    modifies q.LogQueries()`fields, q.LinkQueries()`fields
    ensures q.withGroups.value.Plain(RowIDs(q.rows), fetched) ==> r.Ok? && forall a :: a in r.value ==> Agree(a)
  {
    ghost var ids, fs := RowIDs(q.rows), q.LinkFields();
    ghost var answered := q.Found(ids).answered;
    ghost var joined, logs, links, accounts, groups;
    r, fetched, joined, logs, links, accounts, groups := q.SqlAll();
    if q.withGroups.value.Plain(ids, fetched) {
      SnapshotLoads(s, q, ids, fetched, fs, answered);
      AllAgree(s, q, r.value, fetched, joined, logs, fs, answered, links, accounts, groups);
    }
  }

  lemma AllAgree(s: Snapshot, q: AccountQuery, nodes: seq<Account>, fetched: seq<Group>, joined: seq<Group>,
                 logs: seq<UsageLog>, fs: seq<LinkColumn>, answered: seq<int>, links: seq<AccountGroup>,
                 accounts: seq<Account>, groups: seq<Group>)
    requires s.Consistent() && q.RowsScanned(nodes, q.rows)
    requires q.withGroups.Some? && GroupsFrom(s, q.withGroups.value, RowIDs(q.rows), fetched)
    requires q.withAccountGroups.Some? && q.withAccountGroups.value.withGroup.Some?
    requires LinksFrom(s, q.withAccountGroups.value, RowIDs(q.rows), fs, answered)
    requires q.EdgesLoaded(nodes, fetched, joined, logs, fs, links, accounts, groups)
    ensures forall a :: a in nodes ==> Agree(a)
  {
    q.RowsScannedKeys(nodes, q.rows);
    forall a | a in nodes
      ensures Agree(a)
    {
      QueryRoutesAgree(s, q, nodes, fetched, joined, fs, answered, links, accounts, groups, a);
    }
  }
}
