/** The query over the join-table entity: scanning under a column list, and its two many-to-one edges. */
module AccountGroupQueries {
  import opened Wrappers
  import opened Sequences
  import opened Entities
  import opened EdgeSpecs
  import opened KeyGroups

  datatype LinkColumn = LinkAccountID | LinkGroupID | LinkPriority | LinkCreatedAt | LinkOther(name: string)

  /** A row of the join table. */
  datatype LinkRow = LinkRow(accountID: int, groupID: int)

  /** An edge query: the answer to a list of ids. */
  type Answer<!T> = seq<int> -> Result<seq<T>, Error>

  function AccountKeys(nodes: seq<AccountGroup>): (keys: seq<Option<int>>)
    ensures |keys| == |nodes|
    ensures forall i :: 0 <= i < |nodes| ==> keys[i] == Some(nodes[i].accountID)
  {
    seq(|nodes|, i requires 0 <= i < |nodes| => Some(nodes[i].accountID))
  }

  function GroupKeys(nodes: seq<AccountGroup>): (keys: seq<Option<int>>)
    ensures |keys| == |nodes|
    ensures forall i :: 0 <= i < |nodes| ==> keys[i] == Some(nodes[i].groupID)
  {
    seq(|nodes|, i requires 0 <= i < |nodes| => Some(nodes[i].groupID))
  }

  ghost function GroupIDs(neighbors: seq<Group>): (ids: seq<int>)
    ensures |ids| == |neighbors|
    ensures forall i :: 0 <= i < |ids| ==> ids[i] == neighbors[i].id
  {
    seq(|neighbors|, i requires 0 <= i < |neighbors| => neighbors[i].id)
  }

  lemma KeysOccur<T>(nodes: seq<T>, keys: seq<Option<int>>)
    requires |nodes| == |keys| && forall i :: 0 <= i < |keys| ==> keys[i].Some?
    ensures forall k :: k in FirstSeen(Somes(keys)) <==> k in Somes(keys)
    ensures FirstSeen(Somes(keys)) == [] ==> nodes == []
  {
    SomesMeaning(keys);
    FirstSeenMeaning(Somes(keys));
    if nodes != [] {
      var k := keys[0].value;
      assert Some(k) in keys;
      assert k in Somes(keys);
    }
  }

  lemma AccountOwners(nodes: seq<AccountGroup>, id: int)
    ensures forall x :: x in WithKey(nodes, AccountKeys(nodes), id) <==> x in nodes && x.accountID == id
  {
    var keys := AccountKeys(nodes);
    WithKeyMeaning(nodes, keys, id);
    forall x | x in nodes && x.accountID == id
      ensures x in WithKey(nodes, keys, id)
    {
      var i :| 0 <= i < |nodes| && nodes[i] == x;
      assert keys[i] == Some(id);
    }
  }

  method AssignAccount(owners: seq<AccountGroup>, n: Account)
    modifies owners`account
    ensures forall x :: x in owners ==> x.account == n
  {
    for i := 0 to |owners|
      invariant forall j :: 0 <= j < i ==> owners[j].account == n
    {
      owners[i].account := n;
    }
  }

  /** The second loop of the loader: every neighbour goes to the nodes collected under its id. */
  method AssignAccounts(nodes: seq<AccountGroup>, nodeids: map<int, seq<AccountGroup>>, found: seq<Account>,
                        ghost ids: seq<int>)
    returns (r: Outcome)
    requires forall k :: k in nodeids <==> k in ids
    requires forall k :: k in nodeids ==> forall x :: x in nodeids[k] <==> x in nodes && x.accountID == k
    modifies nodes`account
    ensures r == KeysOutcome(IDs(found), ids)
    ensures r.Loaded? ==> forall x :: x in nodes && x.accountID in ids ==>
              x.account == if LastAccount(found, x.accountID) != null
                then LastAccount(found, x.accountID) else old(x.account)
  {
    IDsMeaning(found);
    for k := 0 to |found|
      invariant KeysOutcome(IDs(found), ids) == KeysOutcome(IDs(found)[k..], ids)
      invariant forall x :: x in nodes && x.accountID in ids ==>
        x.account == if LastAccount(found[..k], x.accountID) != null
          then LastAccount(found[..k], x.accountID) else old(x.account)
    {
      var n := found[k];
      assert IDs(found)[k..][0] == n.id && IDs(found)[k..][1..] == IDs(found)[k + 1..];
      assert found[..k + 1][..k] == found[..k];
      if n.id !in nodeids {
        return Unexpected(n.id);
      }
      var owners := nodeids[n.id];
      assert forall i :: 0 <= i < |owners| ==> owners[i] in owners;
      AssignAccount(owners, n);
    }
    assert found[..|found|] == found;
    return Loaded;
  }

  ghost function Answered(ids: seq<int>, answer: Answer<Account>): seq<Account> {
    if answer(ids).Ok? then answer(ids).value else []
  }

  /** How loading the account edge for some keys ends, when the ids of the answered accounts are `found`: without keys
      the edge query is not asked at all. */
  ghost function AccountOutcome(ids: seq<int>, answer: Answer<Account>, found: seq<int>): Outcome {
    if ids == [] then Loaded
    else match answer(ids)
         case Err(e) => Failed(e)
         case Ok(_) => KeysOutcome(found, ids)
  }

  /** How loading the group edge for some keys ends. */
  ghost function GroupOutcome(ids: seq<int>, answer: Answer<Group>): Outcome {
    if ids == [] then Loaded
    else match answer(ids)
         case Err(e) => Failed(e)
         case Ok(ns) => KeysOutcome(GroupIDs(ns), ids)
  }

  /** Loads the account edge of the join entities: each points at the last returned account with its key. */
  method LoadAccount(nodes: seq<AccountGroup>, answer: Answer<Account>)
    returns (r: Outcome, ghost neighbors: seq<Account>)
    modifies nodes`account
    ensures var ids := FirstSeen(Somes(AccountKeys(nodes)));
            && r == AccountOutcome(ids, answer, IDs(Answered(ids, answer)))
            && (r.Loaded? ==> if ids == [] then neighbors == [] else answer(ids) == Ok(neighbors))
    ensures r.Loaded? ==> forall x :: x in nodes ==>
              x.account == if LastAccount(neighbors, x.accountID) != null
                then LastAccount(neighbors, x.accountID) else old(x.account)
  {
    neighbors := [];
    KeysOccur(nodes, AccountKeys(nodes));
    var ids, nodeids := GroupByKey(nodes, AccountKeys(nodes));
    if ids == [] {
      return Loaded, neighbors;
    }
    var result := answer(ids);
    if result.Err? {
      return Failed(result.error), neighbors;
    }
    neighbors := result.value;
    forall k | k in nodeids
      ensures forall x :: x in nodeids[k] <==> x in nodes && x.accountID == k
    {
      AccountOwners(nodes, k);
    }
    forall x | x in nodes
      ensures x.accountID in ids
    {
      AccountOwners(nodes, x.accountID);
      AbsentKey(nodes, AccountKeys(nodes), x.accountID);
    }
    r := AssignAccounts(nodes, nodeids, result.value, ids);
  }

  lemma GroupOwners(nodes: seq<AccountGroup>, id: int)
    ensures forall x :: x in WithKey(nodes, GroupKeys(nodes), id) <==> x in nodes && x.groupID == id
  {
    var keys := GroupKeys(nodes);
    WithKeyMeaning(nodes, keys, id);
    forall x | x in nodes && x.groupID == id
      ensures x in WithKey(nodes, keys, id)
    {
      var i :| 0 <= i < |nodes| && nodes[i] == x;
      assert keys[i] == Some(id);
    }
  }

  method AssignGroup(owners: seq<AccountGroup>, n: Group)
    modifies owners`group
    ensures forall x :: x in owners ==> x.group == n
  {
    for i := 0 to |owners|
      invariant forall j :: 0 <= j < i ==> owners[j].group == n
    {
      owners[i].group := n;
    }
  }

  /** The second loop of the loader: every neighbour goes to the nodes collected under its id. */
  method AssignGroups(nodes: seq<AccountGroup>, nodeids: map<int, seq<AccountGroup>>, found: seq<Group>,
                      ghost ids: seq<int>)
    returns (r: Outcome)
    requires forall k :: k in nodeids <==> k in ids
    requires forall k :: k in nodeids ==> forall x :: x in nodeids[k] <==> x in nodes && x.groupID == k
    modifies nodes`group
    ensures r == KeysOutcome(GroupIDs(found), ids)
    ensures r.Loaded? ==> forall x :: x in nodes && x.groupID in ids ==>
              x.group == if LastGroup(found, x.groupID) != null then LastGroup(found, x.groupID) else old(x.group)
  {
    for k := 0 to |found|
      invariant KeysOutcome(GroupIDs(found), ids) == KeysOutcome(GroupIDs(found)[k..], ids)
      invariant forall x :: x in nodes && x.groupID in ids ==>
        x.group == if LastGroup(found[..k], x.groupID) != null then LastGroup(found[..k], x.groupID) else old(x.group)
    {
      var n := found[k];
      assert GroupIDs(found)[k..][0] == n.id && GroupIDs(found)[k..][1..] == GroupIDs(found)[k + 1..];
      assert found[..k + 1][..k] == found[..k];
      if n.id !in nodeids {
        return Unexpected(n.id);
      }
      var owners := nodeids[n.id];
      assert forall i :: 0 <= i < |owners| ==> owners[i] in owners;
      AssignGroup(owners, n);
    }
    assert found[..|found|] == found;
    return Loaded;
  }

  /** Loads the group edge of the join entities: each points at the last returned group with its key. */
  method LoadGroup(nodes: seq<AccountGroup>, answer: Answer<Group>) returns (r: Outcome, ghost neighbors: seq<Group>)
    modifies nodes`group
    ensures var ids := FirstSeen(Somes(GroupKeys(nodes)));
            && r == GroupOutcome(ids, answer)
            && (r.Loaded? ==> if ids == [] then neighbors == [] else answer(ids) == Ok(neighbors))
    ensures r.Loaded? ==> forall x :: x in nodes ==>
              x.group == if LastGroup(neighbors, x.groupID) != null
                then LastGroup(neighbors, x.groupID) else old(x.group)
  {
    neighbors := [];
    KeysOccur(nodes, GroupKeys(nodes));
    var ids, nodeids := GroupByKey(nodes, GroupKeys(nodes));
    if ids == [] {
      return Loaded, neighbors;
    }
    var result := answer(ids);
    if result.Err? {
      return Failed(result.error), neighbors;
    }
    neighbors := result.value;
    forall k | k in nodeids
      ensures forall x :: x in nodeids[k] <==> x in nodes && x.groupID == k
    {
      GroupOwners(nodes, k);
    }
    forall x | x in nodes
      ensures x.groupID in ids
    {
      GroupOwners(nodes, x.groupID);
      AbsentKey(nodes, GroupKeys(nodes), x.groupID);
    }
    r := AssignGroups(nodes, nodeids, result.value, ids);
  }

  function AddOnce(columns: seq<LinkColumn>, c: LinkColumn): seq<LinkColumn> {
    if c in columns then columns else columns + [c]
  }

  /** The column list the query selects: everything, or the requested fields and the keys of the loaded edges. */
  function LinkColumns(fields: seq<LinkColumn>, withAccount: bool, withGroup: bool): (columns: seq<LinkColumn>)
    ensures withAccount ==> LinkAccountID in columns
    ensures withGroup ==> LinkGroupID in columns
    ensures forall c :: c in fields ==> c in columns
    ensures fields == [] ==> NoDup(columns) && forall c :: c in columns <==> !c.LinkOther?
    ensures fields != [] ==> forall c :: c in columns ==>
              c in fields || (withAccount && c == LinkAccountID) || (withGroup && c == LinkGroupID)
  {
    if fields == [] then
      var all := [LinkAccountID, LinkGroupID, LinkPriority, LinkCreatedAt];
      assert all[0] == LinkAccountID && all[1] == LinkGroupID && all[2] == LinkPriority && all[3] == LinkCreatedAt;
      all
    else
      var c1 := if withAccount then AddOnce(fields, LinkAccountID) else fields;
      if withGroup then AddOnce(c1, LinkGroupID) else c1
  }

  /** A scanned entity carries the row's keys, as far as their columns were selected; an unselected key reads 0. */
  ghost predicate Scanned(nodes: seq<AccountGroup>, rows: seq<LinkRow>, columns: seq<LinkColumn>) {
    && |nodes| == |rows|
    && (forall i :: 0 <= i < |nodes| ==>
          && nodes[i].accountID == (if LinkAccountID in columns then rows[i].accountID else 0)
          && nodes[i].groupID == (if LinkGroupID in columns then rows[i].groupID else 0))
    && NoDup(nodes)
  }

  /** The keys of scanned join entities, read off the rows. */
  ghost function AccountKeysOf(rows: seq<LinkRow>, columns: seq<LinkColumn>): (keys: seq<Option<int>>)
    ensures |keys| == |rows|
    ensures forall i :: 0 <= i < |rows| ==> keys[i] == Some(if LinkAccountID in columns then rows[i].accountID else 0)
  {
    seq(|rows|, i requires 0 <= i < |rows| => Some(if LinkAccountID in columns then rows[i].accountID else 0))
  }

  ghost function GroupKeysOf(rows: seq<LinkRow>, columns: seq<LinkColumn>): (keys: seq<Option<int>>)
    ensures |keys| == |rows|
    ensures forall i :: 0 <= i < |rows| ==> keys[i] == Some(if LinkGroupID in columns then rows[i].groupID else 0)
  {
    seq(|rows|, i requires 0 <= i < |rows| => Some(if LinkGroupID in columns then rows[i].groupID else 0))
  }

  class AccountGroupQuery {
    var fields: seq<LinkColumn>
    const rows: Answer<LinkRow>
    const withAccount: Option<Answer<Account>>
    const withGroup: Option<Answer<Group>>

    constructor (fields: seq<LinkColumn>, rows: Answer<LinkRow>, withAccount: Option<Answer<Account>>,
                 withGroup: Option<Answer<Group>>)
      ensures this.fields == fields && this.rows == rows
      ensures this.withAccount == withAccount && this.withGroup == withGroup
    {
      this.fields, this.rows, this.withAccount, this.withGroup := fields, rows, withAccount, withGroup;
    }

    /** Adds a field to a narrowed selection. */
    method AppendFieldOnce(c: LinkColumn)
      modifies this`fields
      ensures fields == AddOnce(old(fields), c)
    {
      if c !in fields {
        fields := fields + [c];
      }
    }

    function ColumnsFor(fs: seq<LinkColumn>): seq<LinkColumn> {
      LinkColumns(fs, withAccount.Some?, withGroup.Some?)
    }

    function Columns(): seq<LinkColumn>
      reads this`fields
    {
      ColumnsFor(fields)
    }

    ghost function AskedAccounts(ids: seq<int>, fs: seq<LinkColumn>): seq<int> {
      if rows(ids).Err? then [] else FirstSeen(Somes(AccountKeysOf(rows(ids).value, ColumnsFor(fs))))
    }

    ghost function AskedGroups(ids: seq<int>, fs: seq<LinkColumn>): seq<int> {
      if rows(ids).Err? then [] else FirstSeen(Somes(GroupKeysOf(rows(ids).value, ColumnsFor(fs))))
    }

    ghost function AnsweredAccounts(ids: seq<int>, fs: seq<LinkColumn>): seq<Account> {
      if withAccount.Some? then Answered(AskedAccounts(ids, fs), withAccount.value) else []
    }

    ghost function AnsweredIDs(ids: seq<int>, fs: seq<LinkColumn>): seq<int>
      reads AnsweredAccounts(ids, fs)`id
    {
      IDs(AnsweredAccounts(ids, fs))
    }

    /** The error of the account edge, if it is requested and the ids of the answered accounts are `found`. */
    ghost function AccountError(ids: seq<int>, fs: seq<LinkColumn>, found: seq<int>): Option<Error> {
      if withAccount.Some? then ErrorOf(AccountOutcome(AskedAccounts(ids, fs), withAccount.value, found)) else None
    }

    ghost function GroupError(ids: seq<int>, fs: seq<LinkColumn>): Option<Error> {
      if withGroup.Some? then ErrorOf(GroupOutcome(AskedGroups(ids, fs), withGroup.value)) else None
    }

    /** The error the query ends with, when it selects fs: an invalid field, an error of the rows, or, when there are
        rows, the first of its edges whose answer is an error or holds something not asked for. */
    ghost function ErrorFor(ids: seq<int>, fs: seq<LinkColumn>, found: seq<int>): Option<Error> {
      if exists c :: c in fs && c.LinkOther? then Some(InvalidField)
      else if rows(ids).Err? then Some(rows(ids).error)
      else if rows(ids).value == [] then None
      else if AccountError(ids, fs, found).Some? then AccountError(ids, fs, found)
      else GroupError(ids, fs)
    }

    method Scan(links: seq<LinkRow>) returns (nodes: seq<AccountGroup>)
      ensures Scanned(nodes, links, Columns())
      ensures forall x :: x in nodes ==>
                fresh(x) && x.account == null && x.group == null
                && x.accountLoaded == withAccount.Some? && x.groupLoaded == withGroup.Some?
    {
      nodes := [];
      var columns := Columns();
      for i := 0 to |links|
        invariant Scanned(nodes, links[..i], columns)
        invariant forall x :: x in nodes ==>
                    fresh(x) && x.account == null && x.group == null
                    && x.accountLoaded == withAccount.Some? && x.groupLoaded == withGroup.Some?
      {
        var node := new AccountGroup(if LinkAccountID in columns then links[i].accountID else 0,
                                     if LinkGroupID in columns then links[i].groupID else 0);
        node.accountLoaded, node.groupLoaded := withAccount.Some?, withGroup.Some?;
        nodes := nodes + [node];
      }
      assert links[..|links|] == links;
    }

    method RunAccount(nodes: seq<AccountGroup>) returns (e: Option<Error>, ghost found: seq<Account>)
      requires nodes != [] && forall x :: x in nodes ==> x.account == null
      modifies nodes`account
      ensures var ids := FirstSeen(Somes(AccountKeys(nodes)));
              e == if withAccount.Some?
                   then ErrorOf(AccountOutcome(ids, withAccount.value, IDs(Answered(ids, withAccount.value))))
                   else None
      ensures e.None? && withAccount.Some? ==> withAccount.value(FirstSeen(Somes(AccountKeys(nodes)))) == Ok(found)
      ensures e.None? ==>
                forall x :: x in nodes ==>
                  x.account == if withAccount.Some? then LastAccount(found, x.accountID) else null
    {
      found := [];
      if withAccount.Some? {
        KeysOccur(nodes, AccountKeys(nodes));
        var outcome, ns := LoadAccount(nodes, withAccount.value);
        found := ns;
        if !outcome.Loaded? {
          return Some(outcome.AsError()), found;
        }
      }
      return None, found;
    }

    method RunGroup(nodes: seq<AccountGroup>) returns (e: Option<Error>, ghost found: seq<Group>)
      requires nodes != [] && forall x :: x in nodes ==> x.group == null
      modifies nodes`group
      ensures e == if withGroup.Some?
                then ErrorOf(GroupOutcome(FirstSeen(Somes(GroupKeys(nodes))), withGroup.value)) else None
      ensures e.None? && withGroup.Some? ==> withGroup.value(FirstSeen(Somes(GroupKeys(nodes)))) == Ok(found)
      ensures e.None? ==>
                forall x :: x in nodes ==> x.group == if withGroup.Some? then LastGroup(found, x.groupID) else null
    {
      found := [];
      if withGroup.Some? {
        KeysOccur(nodes, GroupKeys(nodes));
        var outcome, ns := LoadGroup(nodes, withGroup.value);
        found := ns;
        if !outcome.Loaded? {
          return Some(outcome.AsError()), found;
        }
      }
      return None, found;
    }

    lemma KeysAsked(nodes: seq<AccountGroup>, ids: seq<int>)
      requires rows(ids).Ok? && Scanned(nodes, rows(ids).value, Columns())
      ensures FirstSeen(Somes(AccountKeys(nodes))) == AskedAccounts(ids, fields)
      ensures FirstSeen(Somes(GroupKeys(nodes))) == AskedGroups(ids, fields)
    {
      assert AccountKeys(nodes) == AccountKeysOf(rows(ids).value, Columns());
      assert GroupKeys(nodes) == GroupKeysOf(rows(ids).value, Columns());
    }

    /** The two edges, in order; the first error ends the run. */
    method RunEdges(nodes: seq<AccountGroup>, ghost ids: seq<int>)
      returns (e: Option<Error>, ghost accounts: seq<Account>, ghost groups: seq<Group>)
      requires nodes != [] && rows(ids).Ok? && Scanned(nodes, rows(ids).value, Columns())
      requires forall x :: x in nodes ==> x.account == null && x.group == null
      modifies nodes`account, nodes`group
      ensures var a := AccountError(ids, fields, AnsweredIDs(ids, fields));
              e == if a.Some? then a else GroupError(ids, fields)
      ensures e.None? && withAccount.Some? ==> withAccount.value(FirstSeen(Somes(AccountKeys(nodes)))) == Ok(accounts)
      ensures e.None? && withGroup.Some? ==> withGroup.value(FirstSeen(Somes(GroupKeys(nodes)))) == Ok(groups)
      ensures e.None? ==> forall x :: x in nodes ==>
                && x.account == (if withAccount.Some? then LastAccount(accounts, x.accountID) else null)
                && x.group == (if withGroup.Some? then LastGroup(groups, x.groupID) else null)
    {
      groups := [];
      KeysAsked(nodes, ids);
      ghost var answered := AnsweredAccounts(ids, fields);
      e, accounts := RunAccount(nodes);
      assert e == AccountError(ids, fields, IDs(answered));
      if e.None? {
        e, groups := RunGroup(nodes);
        assert AccountError(ids, fields, IDs(answered)).None?;
      }
    }

    /** Runs the query for a list of account ids and loads the requested edges. */
    method All(ids: seq<int>)
      returns (r: Result<seq<AccountGroup>, Error>, ghost accounts: seq<Account>, ghost groups: seq<Group>)
      ensures match ErrorFor(ids, fields, AnsweredIDs(ids, fields)) case Some(e) => r == Err(e) case None => r.Ok?
      ensures r.Ok? ==> rows(ids).Ok? && Scanned(r.value, rows(ids).value, Columns())
      ensures r.Ok? ==> forall x :: x in r.value ==>
                fresh(x) && x.accountLoaded == withAccount.Some? && x.groupLoaded == withGroup.Some?
      ensures r.Ok? && r.value != [] && withAccount.Some? ==>
                withAccount.value(FirstSeen(Somes(AccountKeys(r.value)))) == Ok(accounts)
      ensures r.Ok? ==> forall x :: x in r.value ==>
                x.account == if withAccount.Some? then LastAccount(accounts, x.accountID) else null
      ensures r.Ok? && r.value != [] && withGroup.Some? ==>
                withGroup.value(FirstSeen(Somes(GroupKeys(r.value)))) == Ok(groups)
      ensures r.Ok? ==> forall x :: x in r.value ==>
                x.group == if withGroup.Some? then LastGroup(groups, x.groupID) else null
    {
      accounts, groups := [], [];
      if exists c :: c in fields && c.LinkOther? {
        return Err(InvalidField), accounts, groups;
      }
      var found := rows(ids);
      if found.Err? {
        return Err(found.error), accounts, groups;
      }
      var nodes := Scan(found.value);
      assert forall i :: 0 <= i < |nodes| ==> nodes[i] in nodes;
      if nodes == [] {
        return Ok(nodes), accounts, groups;
      }
      var e, accs, grps := RunEdges(nodes, ids);
      accounts, groups := accs, grps;
      r := if e.Some? then Err(e.value) else Ok(nodes);
    }
  }
}
