/** What the loaders' results mean, and how they agree with each other on one snapshot of the database. */
module EdgeTheorems {
  import opened Wrappers
  import opened Sequences
  import opened Entities
  import opened EdgeSpecs
  import opened KeyGroups
  import opened AccountGroupQueries
  import opened AccountQueries
  import opened AccountSqlAll

  // ---------- the many-to-many join ----------

  ghost function RowGroups(rows: seq<JoinRow>): (ids: seq<int>)
    ensures |ids| == |rows| && forall i :: 0 <= i < |rows| ==> ids[i] == rows[i].groupID
  {
    seq(|rows|, i requires 0 <= i < |rows| => rows[i].groupID)
  }

  lemma KnownIsListed(rows: seq<JoinRow>, g: int)
    ensures Known(rows, g) <==> g in RowGroups(rows)
  {
    if Known(rows, g) {
      var r :| r in rows && r.groupID == g;
      var i :| 0 <= i < |rows| && rows[i] == r;
      assert RowGroups(rows)[i] == g;
    }
    if g in RowGroups(rows) {
      var i :| 0 <= i < |rows| && RowGroups(rows)[i] == g;
      assert rows[i] in rows;
    }
  }

  /** The groups scanned from the stream are its distinct groups in first-appearance order. */
  lemma {:induction false} FirstRowsAreFirstSeen(rows: seq<JoinRow>)
    ensures |FirstRows(rows)| == |FirstSeen(RowGroups(rows))|
    ensures forall i :: 0 <= i < |FirstRows(rows)| ==> FirstRows(rows)[i].groupID == FirstSeen(RowGroups(rows))[i]
  {
    if rows != [] {
      var n := |rows| - 1;
      var all, init := RowGroups(rows), RowGroups(rows[..n]);
      FirstRowsAreFirstSeen(rows[..n]);
      assert all[..n] == init;
      KnownIsListed(rows[..n], all[n]);
    }
  }

  /** Each scanned group is taken from the first row of the stream that has its id. */
  lemma {:induction false} FirstRowsAreFirst(rows: seq<JoinRow>)
    ensures forall f :: f in FirstRows(rows) ==> f.groupID in RowGroups(rows)
    ensures forall f :: f in FirstRows(rows) ==> rows[FirstIndex(RowGroups(rows), f.groupID)] == f
  {
    if rows != [] {
      var n := |rows| - 1;
      var all, init := RowGroups(rows), RowGroups(rows[..n]);
      FirstRowsAreFirst(rows[..n]);
      assert all[..n] == init;
      forall f | f in FirstRows(rows)
        ensures f.groupID in all && rows[FirstIndex(all, f.groupID)] == f
      {
        if f in FirstRows(rows[..n]) {
          var k := FirstIndex(init, f.groupID);
          assert all[..k] == init[..k] && all[k] == f.groupID;
          FirstIndexUnique(all, f.groupID, k);
        } else {
          KnownIsListed(rows[..n], f.groupID);
          assert f == rows[n] && all[n] == f.groupID;
          FirstIndexUnique(all, f.groupID, n);
        }
      }
    }
  }

  /** Whatever the interceptors hand on, an account's groups are exactly the handed groups linked to it, in order and as
      often as they were handed on. */
  lemma {:induction false} JoinedOrder(neighbors: seq<Group>, rows: seq<JoinRow>, a: int)
    returns (positions: seq<nat>)
    ensures Picked(JoinedGroups(neighbors, rows, a), neighbors, positions)
    ensures forall i :: 0 <= i < |neighbors| ==> (i in positions <==> Linked(rows, a, neighbors[i].id))
  {
    positions := [];
    if neighbors != [] {
      var n := |neighbors| - 1;
      positions := JoinedOrder(neighbors[..n], rows, a);
      positions := PickedStep(JoinedGroups(neighbors[..n], rows, a), neighbors, positions,
                              Linked(rows, a, neighbors[n].id));
    }
  }

  lemma {:induction false} JoinedSelects(neighbors: seq<Group>, rows: seq<JoinRow>, a: int)
    ensures forall n :: n in JoinedGroups(neighbors, rows, a) <==> n in neighbors && Linked(rows, a, n.id)
  {
    if neighbors != [] {
      var n := |neighbors| - 1;
      JoinedSelects(neighbors[..n], rows, a);
      assert neighbors == neighbors[..n] + [neighbors[n]];
    }
  }

  lemma {:induction false} JoinedRanked(neighbors: seq<Group>, rows: seq<JoinRow>, a: int, rank: int -> int)
    requires forall i, j :: 0 <= i < j < |neighbors| ==> rank(neighbors[i].id) < rank(neighbors[j].id)
    ensures var gs := JoinedGroups(neighbors, rows, a);
            && (forall i, j :: 0 <= i < j < |gs| ==> rank(gs[i].id) < rank(gs[j].id))
            && (gs != [] ==> rank(gs[|gs| - 1].id) <= rank(neighbors[|neighbors| - 1].id))
  {
    if neighbors != [] {
      var n := |neighbors| - 1;
      JoinedRanked(neighbors[..n], rows, a, rank);
      var r := JoinedGroups(neighbors[..n], rows, a);
      if r != [] {
        assert neighbors[..n][n - 1] == neighbors[n - 1];
        assert forall i :: 0 <= i < |r| ==> rank(r[i].id) <= rank(r[|r| - 1].id) < rank(neighbors[n].id);
      }
    }
  }

  ghost function FirstRank(s: seq<int>): int -> int {
    g => if g in s then FirstIndex(s, g) else -1
  }

  lemma FetchedRanked(fetched: seq<Group>, rows: seq<JoinRow>)
    requires Fetched(fetched, rows)
    ensures forall g :: (exists n :: n in fetched && n.id == g) <==> g in RowGroups(rows)
    ensures forall i, j :: 0 <= i < j < |fetched| ==>
              FirstRank(RowGroups(rows))(fetched[i].id) < FirstRank(RowGroups(rows))(fetched[j].id)
  {
    var ids := RowGroups(rows);
    FirstRowsAreFirstSeen(rows);
    FirstSeenMeaning(ids);
    FirstSeenOrdered(ids);
    forall i | 0 <= i < |fetched|
      ensures fetched[i].id == FirstSeen(ids)[i] && fetched[i].id in ids
    {
      assert FirstSeen(ids)[i] in FirstSeen(ids);
    }
    forall g | g in ids
      ensures exists n :: n in fetched && n.id == g
    {
      assert g in FirstSeen(ids);
      var i :| 0 <= i < |FirstSeen(ids)| && FirstSeen(ids)[i] == g;
      assert fetched[i] in fetched;
    }
  }

  lemma JoinedIDs(fetched: seq<Group>, rows: seq<JoinRow>, a: int, g: int)
    requires Fetched(fetched, rows)
    ensures g in GroupIDs(JoinedGroups(fetched, rows, a)) <==> Linked(rows, a, g)
  {
    var gs := JoinedGroups(fetched, rows, a);
    var ids := GroupIDs(gs);
    JoinedSelects(fetched, rows, a);
    if g in ids {
      var i :| 0 <= i < |ids| && ids[i] == g;
      var n := gs[i];
      assert n in gs;
    }
    if Linked(rows, a, g) {
      var r :| r in rows && r.accountID == a && r.groupID == g;
      var k :| 0 <= k < |rows| && rows[k] == r;
      assert RowGroups(rows)[k] == g;
      assert g in RowGroups(rows);
      FetchedRanked(fetched, rows);
      var n :| n in fetched && n.id == g;
      assert n in gs;
      var i :| 0 <= i < |gs| && gs[i] == n;
      assert ids[i] == g;
    }
  }

  /** The plain join: with nothing intercepted, an account gets exactly the groups that have a row with it, each
      once, ordered by the first appearance of the group in the whole stream, however rows repeat or interleave. */
  lemma JoinIsNestedLoop(fetched: seq<Group>, rows: seq<JoinRow>, a: int)
    requires Fetched(fetched, rows)
    ensures var ids := GroupIDs(JoinedGroups(fetched, rows, a));
            && NoDup(ids)
            && (forall g :: g in ids <==> Linked(rows, a, g))
            && (forall i, j :: 0 <= i < j < |ids| ==>
                FirstRank(RowGroups(rows))(ids[i]) < FirstRank(RowGroups(rows))(ids[j]))
  {
    FetchedRanked(fetched, rows);
    var rank := FirstRank(RowGroups(rows));
    JoinedRanked(fetched, rows, a, rank);
    forall g
      ensures g in GroupIDs(JoinedGroups(fetched, rows, a)) <==> Linked(rows, a, g)
    {
      JoinedIDs(fetched, rows, a, g);
    }
  }

  /** For accounts with pairwise distinct ids, a row stream and nothing intercepted: every account ends up with exactly
      the groups that have a row with it, each once, in the order in which the stream first meets them. */
  lemma EveryAccountGetsItsJoin(nodes: seq<Account>, fetched: seq<Group>, rows: seq<JoinRow>, a: Account)
    requires NoDup(IDs(nodes)) && a in nodes
    requires Fetched(fetched, rows) && GroupsLoaded(nodes, fetched, rows)
    ensures NoDup(GroupIDs(a.groups))
    ensures forall g :: g in GroupIDs(a.groups) <==> Linked(rows, a.id, g)
    ensures forall i, j :: 0 <= i < j < |a.groups| ==>
              FirstRank(RowGroups(rows))(a.groups[i].id) < FirstRank(RowGroups(rows))(a.groups[j].id)
  {
    DistinctIDsOwn(nodes);
    JoinIsNestedLoop(fetched, rows, a.id);
  }

  /** The groups of an account's own rows, in stream order: what the edge would list if each account were loaded
      on its own. */
  ghost function OwnGroups(rows: seq<JoinRow>, a: int): seq<int> {
    if rows == [] then []
    else
      var n := |rows| - 1;
      if rows[n].accountID == a then OwnGroups(rows[..n], a) + [rows[n].groupID] else OwnGroups(rows[..n], a)
  }

  lemma {:induction false} OwnGroupsMeaning(rows: seq<JoinRow>, a: int)
    ensures forall g :: g in OwnGroups(rows, a) <==> Linked(rows, a, g)
  {
    if rows != [] {
      var n := |rows| - 1;
      OwnGroupsMeaning(rows[..n], a);
      assert rows == rows[..n] + [rows[n]];
      forall g
        ensures Linked(rows, a, g) <==> Linked(rows[..n], a, g) || (rows[n].accountID == a && rows[n].groupID == g)
      {
        if Linked(rows, a, g) {
          var r :| r in rows && r.accountID == a && r.groupID == g;
          assert r in rows[..n] || r == rows[n];
        }
      }
    }
  }

  /** The own groups are those of the account's rows, in stream order and as often as they occur. */
  lemma {:induction false} OwnGroupsOrder(rows: seq<JoinRow>, a: int) returns (positions: seq<nat>)
    ensures Picked(OwnGroups(rows, a), RowGroups(rows), positions)
    ensures forall i :: 0 <= i < |rows| ==> (i in positions <==> rows[i].accountID == a)
  {
    positions := [];
    if rows != [] {
      var n := |rows| - 1;
      positions := OwnGroupsOrder(rows[..n], a);
      assert RowGroups(rows)[..n] == RowGroups(rows[..n]);
      positions := PickedStep(OwnGroups(rows[..n], a), RowGroups(rows), positions, rows[n].accountID == a);
    }
  }

  /** Whether the whole stream and the account's own rows meet the account's groups in the same order. */
  ghost predicate SameOrder(rows: seq<JoinRow>, a: int) {
    forall g, h :: Linked(rows, a, g) && Linked(rows, a, h) ==>
      (FirstRank(RowGroups(rows))(g) < FirstRank(RowGroups(rows))(h) <==>
       FirstRank(OwnGroups(rows, a))(g) < FirstRank(OwnGroups(rows, a))(h))
  }

  lemma OwnRanked(rows: seq<JoinRow>, a: int)
    ensures var own := FirstSeen(OwnGroups(rows, a));
            && (forall g :: g in own <==> Linked(rows, a, g))
            && (forall i, j :: 0 <= i < j < |own| ==>
                FirstRank(OwnGroups(rows, a))(own[i]) < FirstRank(OwnGroups(rows, a))(own[j]))
  {
    var own := OwnGroups(rows, a);
    OwnGroupsMeaning(rows, a);
    FirstSeenMeaning(own);
    FirstSeenOrdered(own);
    forall i | 0 <= i < |FirstSeen(own)|
      ensures FirstSeen(own)[i] in own
    {
      assert FirstSeen(own)[i] in FirstSeen(own);
    }
  }

  /** Two lists of the same elements, each sorted by its own ranking, are equal exactly if the rankings agree. */
  lemma EqualIffRanksAgree(a: seq<int>, b: seq<int>, rankA: int -> int, rankB: int -> int)
    requires forall x :: x in a <==> x in b
    requires forall i, j :: 0 <= i < j < |a| ==> rankA(a[i]) < rankA(a[j])
    requires forall i, j :: 0 <= i < j < |b| ==> rankB(b[i]) < rankB(b[j])
    ensures a == b <==> forall x, y :: x in a && y in a ==> (rankA(x) < rankA(y) <==> rankB(x) < rankB(y))
  {
    if forall x, y :: x in a && y in a ==> (rankA(x) < rankA(y) <==> rankB(x) < rankB(y)) {
      forall i, j | 0 <= i < j < |a|
        ensures rankB(a[i]) < rankB(a[j])
      {
        assert a[i] in a && a[j] in a;
      }
      RankedUnique(a, b, rankB);
    }
    if a == b {
      forall x, y | x in a && y in a
        ensures rankA(x) < rankA(y) <==> rankB(x) < rankB(y)
      {
        var i :| 0 <= i < |a| && a[i] == x;
        var j :| 0 <= j < |a| && a[j] == y;
        assert i < j || i == j || j < i;
      }
    }
  }

  /** Loading an account among others lists its groups in the order of its own rows if and only if the stream meets
      those groups in that order. */
  lemma OwnOrderKeptIff(fetched: seq<Group>, rows: seq<JoinRow>, a: int)
    requires Fetched(fetched, rows)
    ensures GroupIDs(JoinedGroups(fetched, rows, a)) == FirstSeen(OwnGroups(rows, a)) <==> SameOrder(rows, a)
  {
    JoinIsNestedLoop(fetched, rows, a);
    OwnRanked(rows, a);
    EqualIffRanksAgree(GroupIDs(JoinedGroups(fetched, rows, a)), FirstSeen(OwnGroups(rows, a)),
                       FirstRank(RowGroups(rows)), FirstRank(OwnGroups(rows, a)));
  }

  /** Rows of two accounts that interleave: account 2 is given groups 20, 10 though its own rows come 10, 20. */
  lemma InterleavedOrder()
    ensures var rows := [JoinRow(1, 20, 0), JoinRow(2, 10, 0), JoinRow(2, 20, 0)];
            !SameOrder(rows, 2)
  {
    var r0, r1, r2 := JoinRow(1, 20, 0), JoinRow(2, 10, 0), JoinRow(2, 20, 0);
    var rows := [r0, r1, r2];
    assert rows[..2] == [r0, r1] && [r0, r1][..1] == [r0] && [r0][..0] == [];
    assert OwnGroups([r0], 2) == [] && OwnGroups([r0, r1], 2) == [10] && OwnGroups(rows, 2) == [10, 20];
    assert RowGroups(rows) == [20, 10, 20];
    assert r1 in rows && r2 in rows;
    assert Linked(rows, 2, 10) && Linked(rows, 2, 20);
    assert FirstRank([20, 10, 20])(20) == 0 && FirstRank([10, 20])(10) == 0;
  }

  // ---------- shadowed accounts ----------

  /** An account followed by a different one with the same id loses all its list edges to it. */
  lemma ShadowedAccountIsEmpty(nodes: seq<Account>, i: nat, j: nat, neighbors: seq<Group>, rows: seq<JoinRow>,
                               logs: seq<UsageLog>, links: seq<AccountGroup>)
    requires i < j < |nodes| && nodes[i].id == nodes[j].id && NoDup(nodes)
    requires GroupsLoaded(nodes, neighbors, rows) && UsageLogsLoaded(nodes, logs) && AccountGroupsLoaded(nodes, links)
    ensures nodes[i].groups == [] && nodes[i].usageLogs == [] && nodes[i].accountGroups == []
  {
    LastOwns(nodes, j);
    assert nodes[i] in nodes;
  }

  lemma {:induction false} LastOwns(nodes: seq<Account>, j: nat)
    requires j < |nodes|
    ensures nodes[j].id in ByID(nodes)
    ensures exists k :: j <= k < |nodes| && nodes[k] == ByID(nodes)[nodes[j].id]
  {
    var n := |nodes| - 1;
    if nodes[n].id == nodes[j].id {
      assert nodes[n] == ByID(nodes)[nodes[j].id];
    } else {
      assert nodes[..n][j] == nodes[j];
      LastOwns(nodes[..n], j);
      var k :| j <= k < n && nodes[..n][k] == ByID(nodes[..n])[nodes[j].id];
      assert nodes[k] == ByID(nodes)[nodes[j].id];
    }
  }

  /** In a duplicate-free result an account owns its neighbours exactly if no later one has its id. */
  lemma OwnerIsLast(nodes: seq<Account>, i: nat)
    requires i < |nodes| && NoDup(nodes)
    ensures Owner(nodes, nodes[i]) <==> forall j :: i < j < |nodes| ==> nodes[j].id != nodes[i].id
  {
    ByIDMeaning(nodes);
    if j :| i < j < |nodes| && nodes[j].id == nodes[i].id {
      LastOwns(nodes, j);
    }
  }

  // ---------- one to many: a stable partition ----------

  ghost function LogOptions(neighbors: seq<UsageLog>): (keys: seq<Option<int>>)
    ensures |keys| == |neighbors| && forall i :: 0 <= i < |keys| ==> keys[i] == Some(neighbors[i].accountID)
  {
    seq(|neighbors|, i requires 0 <= i < |neighbors| => Some(neighbors[i].accountID))
  }

  lemma {:induction false} LogsOfIsGroup(neighbors: seq<UsageLog>, id: int)
    ensures LogsOf(neighbors, id) == WithKey(neighbors, LogOptions(neighbors), id)
  {
    if neighbors != [] {
      var n := |neighbors| - 1;
      LogsOfIsGroup(neighbors[..n], id);
      assert LogOptions(neighbors)[..n] == LogOptions(neighbors[..n]);
    }
  }

  /** The logs of an account are those that carry its id, in answer order and as often as they occur. */
  lemma LogsOfOrder(neighbors: seq<UsageLog>, id: int) returns (positions: seq<nat>)
    ensures Picked(LogsOf(neighbors, id), neighbors, positions)
    ensures forall i :: 0 <= i < |neighbors| ==> (i in positions <==> neighbors[i].accountID == id)
  {
    LogsOfIsGroup(neighbors, id);
    positions := WithKeyOrder(neighbors, LogOptions(neighbors), id);
  }

  /** The lists the accounts hold, one after the other. */
  ghost function HeldLogs(nodes: seq<Account>): seq<UsageLog>
    reads nodes`usageLogs
  {
    if nodes == [] then [] else HeldLogs(nodes[..|nodes| - 1]) + nodes[|nodes| - 1].usageLogs
  }

  lemma {:induction false} HeldLogsAre(nodes: seq<Account>, neighbors: seq<UsageLog>)
    requires forall a :: a in nodes ==> a.usageLogs == LogsOf(neighbors, a.id)
    ensures HeldLogs(nodes) == AllWithKey(neighbors, LogOptions(neighbors), IDs(nodes))
  {
    if nodes != [] {
      var n := |nodes| - 1;
      HeldLogsAre(nodes[..n], neighbors);
      LogsOfIsGroup(neighbors, nodes[n].id);
      var init := IDs(nodes[..n]);
      assert IDs(nodes) == init + [nodes[n].id] && IDs(nodes)[..|init|] == init;
    }
  }

  /** After loading the logs of accounts with pairwise distinct ids, each account holds its own, in order, and together
      they hold every log exactly as often as the answer does. */
  lemma EveryLogIsHeldOnce(nodes: seq<Account>, neighbors: seq<UsageLog>)
    requires NoDup(IDs(nodes)) && UsageLogsLoaded(nodes, neighbors)
    requires forall n :: n in neighbors ==> n.accountID in IDs(nodes)
    ensures forall a :: a in nodes ==> a.usageLogs == LogsOf(neighbors, a.id)
    ensures multiset(HeldLogs(nodes)) == multiset(neighbors)
  {
    DistinctIDsOwn(nodes);
    HeldLogsAre(nodes, neighbors);
    assert forall i :: 0 <= i < |neighbors| ==> neighbors[i] in neighbors;
    GroupsHoldAll(neighbors, LogOptions(neighbors), IDs(nodes));
  }

  ghost function LinkOptions(neighbors: seq<AccountGroup>): (keys: seq<Option<int>>)
    ensures |keys| == |neighbors| && forall i :: 0 <= i < |keys| ==> keys[i] == Some(neighbors[i].accountID)
  {
    seq(|neighbors|, i requires 0 <= i < |neighbors| => Some(neighbors[i].accountID))
  }

  lemma {:induction false} LinksOfIsGroup(neighbors: seq<AccountGroup>, id: int)
    ensures LinksOf(neighbors, id) == WithKey(neighbors, LinkOptions(neighbors), id)
  {
    if neighbors != [] {
      var n := |neighbors| - 1;
      LinksOfIsGroup(neighbors[..n], id);
      assert LinkOptions(neighbors)[..n] == LinkOptions(neighbors[..n]);
    }
  }

  /** The join entities of an account are those that carry its id, in answer order and as often as they occur. */
  lemma LinksOfOrder(neighbors: seq<AccountGroup>, id: int) returns (positions: seq<nat>)
    ensures Picked(LinksOf(neighbors, id), neighbors, positions)
    ensures forall i :: 0 <= i < |neighbors| ==> (i in positions <==> neighbors[i].accountID == id)
  {
    LinksOfIsGroup(neighbors, id);
    positions := WithKeyOrder(neighbors, LinkOptions(neighbors), id);
  }

  /** The lists the accounts hold, one after the other. */
  ghost function HeldLinks(nodes: seq<Account>): seq<AccountGroup>
    reads nodes`accountGroups
  {
    if nodes == [] then [] else HeldLinks(nodes[..|nodes| - 1]) + nodes[|nodes| - 1].accountGroups
  }

  lemma {:induction false} HeldLinksAre(nodes: seq<Account>, neighbors: seq<AccountGroup>)
    requires forall a :: a in nodes ==> a.accountGroups == LinksOf(neighbors, a.id)
    ensures HeldLinks(nodes) == AllWithKey(neighbors, LinkOptions(neighbors), IDs(nodes))
  {
    if nodes != [] {
      var n := |nodes| - 1;
      HeldLinksAre(nodes[..n], neighbors);
      LinksOfIsGroup(neighbors, nodes[n].id);
      var init := IDs(nodes[..n]);
      assert IDs(nodes) == init + [nodes[n].id] && IDs(nodes)[..|init|] == init;
    }
  }

  /** The same for join entities. */
  lemma EveryLinkIsHeldOnce(nodes: seq<Account>, neighbors: seq<AccountGroup>)
    requires NoDup(IDs(nodes)) && AccountGroupsLoaded(nodes, neighbors)
    requires forall n :: n in neighbors ==> n.accountID in IDs(nodes)
    ensures forall a :: a in nodes ==> a.accountGroups == LinksOf(neighbors, a.id)
    ensures multiset(HeldLinks(nodes)) == multiset(neighbors)
  {
    DistinctIDsOwn(nodes);
    HeldLinksAre(nodes, neighbors);
    assert forall i :: 0 <= i < |neighbors| ==> neighbors[i] in neighbors;
    GroupsHoldAll(neighbors, LinkOptions(neighbors), IDs(nodes));
  }

  // ---------- many to one ----------

  /** The proxy edge points at a returned proxy with the account's key exactly if there is one. */
  lemma {:induction false} LastProxyMeaning(neighbors: seq<Proxy>, id: int)
    ensures var p := LastProxy(neighbors, id);
            if p == null then forall n :: n in neighbors ==> n.id != id
            else p.id == id && exists i :: 0 <= i < |neighbors| && neighbors[i] == p
                                           && forall j :: i < j < |neighbors| ==> neighbors[j].id != id
  {
    if neighbors != [] {
      var n := |neighbors| - 1;
      LastProxyMeaning(neighbors[..n], id);
      assert neighbors == neighbors[..n] + [neighbors[n]];
      if neighbors[n].id != id && LastProxy(neighbors, id) != null {
        var i :| 0 <= i < n && neighbors[..n][i] == LastProxy(neighbors, id)
                 && forall j :: i < j < n ==> neighbors[..n][j].id != id;
        forall j | i < j < |neighbors|
          ensures neighbors[j].id != id
        {
          assert j < n ==> neighbors[..n][j] == neighbors[j];
        }
      }
    }
  }

  /** The same for the two edges of the join entity. */
  lemma {:induction false} LastGroupMeaning(neighbors: seq<Group>, id: int)
    ensures var g := LastGroup(neighbors, id);
            if g == null then forall n :: n in neighbors ==> n.id != id
            else g.id == id && exists i :: 0 <= i < |neighbors| && neighbors[i] == g
                                           && forall j :: i < j < |neighbors| ==> neighbors[j].id != id
  {
    if neighbors != [] {
      var n := |neighbors| - 1;
      LastGroupMeaning(neighbors[..n], id);
      assert neighbors == neighbors[..n] + [neighbors[n]];
      if neighbors[n].id != id && LastGroup(neighbors, id) != null {
        var i :| 0 <= i < n && neighbors[..n][i] == LastGroup(neighbors, id)
                 && forall j :: i < j < n ==> neighbors[..n][j].id != id;
        forall j | i < j < |neighbors|
          ensures neighbors[j].id != id
        {
          assert j < n ==> neighbors[..n][j] == neighbors[j];
        }
      }
    }
  }

  lemma {:induction false} LastAccountMeaning(neighbors: seq<Account>, id: int)
    ensures var a := LastAccount(neighbors, id);
            if a == null then forall n :: n in neighbors ==> n.id != id
            else a.id == id && exists i :: 0 <= i < |neighbors| && neighbors[i] == a
                                           && forall j :: i < j < |neighbors| ==> neighbors[j].id != id
  {
    if neighbors != [] {
      var n := |neighbors| - 1;
      LastAccountMeaning(neighbors[..n], id);
      assert neighbors == neighbors[..n] + [neighbors[n]];
      if neighbors[n].id != id && LastAccount(neighbors, id) != null {
        var i :| 0 <= i < n && neighbors[..n][i] == LastAccount(neighbors, id)
                 && forall j :: i < j < n ==> neighbors[..n][j].id != id;
        forall j | i < j < |neighbors|
          ensures neighbors[j].id != id
        {
          assert j < n ==> neighbors[..n][j] == neighbors[j];
        }
      }
    }
  }

  // ---------- the accessors ----------

  /** What an accessor reports after a successful query: "not loaded" exactly when its edge was not requested; "not
      found" exactly for a requested proxy when the account has no key or no proxy in the answer to the distinct keys
      has it; otherwise the edge, which for the proxy is the last one of that answer with the key. */
  lemma AccessorsReport(q: AccountQuery, nodes: seq<Account>, x: Account)
    requires x in nodes && x.loadedTypes == q.Loaded() && q.ProxyEdge(nodes)
    ensures x.GroupsOrErr() == if q.withGroups.None? then Err(NotLoaded) else Ok(x.groups)
    ensures x.UsageLogsOrErr() == if q.withUsageLogs.None? then Err(NotLoaded) else Ok(x.usageLogs)
    ensures x.AccountGroupsOrErr() == if q.withAccountGroups.None? then Err(NotLoaded) else Ok(x.accountGroups)
    ensures x.ProxyOrErr() == Err(NotLoaded) <==> q.withProxy.None?
    ensures q.withProxy.Some? && x.proxyID.None? ==> x.ProxyOrErr() == Err(NotFound)
    ensures q.withProxy.Some? && x.proxyID.Some? ==>
              var answer := q.withProxy.value(FirstSeen(Somes(ProxyKeys(nodes))));
              && answer.Ok?
              && match x.ProxyOrErr()
                 case Err(e) => e == NotFound && forall p :: p in answer.value ==> p.id != x.proxyID.value
                 case Ok(p) =>
                   && p.id == x.proxyID.value
                   && exists i :: 0 <= i < |answer.value| && answer.value[i] == p
                                  && forall j :: i < j < |answer.value| ==> answer.value[j].id != p.id
  {
    if q.withProxy.Some? && x.proxyID.Some? {
      LastProxyMeaning(q.withProxy.value(FirstSeen(Somes(ProxyKeys(nodes)))).value, x.proxyID.value);
    }
  }
}
