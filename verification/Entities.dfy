/** The entity objects. The key columns of a neighbour are written once, when its row is scanned; edges are
    written later, in place, by the eager loaders. */
module Entities {
  import opened Wrappers
  import opened AccountColumns

  class Group {
    const id: int
    const detail: int

    constructor (id: int, detail: int)
      ensures this.id == id && this.detail == detail
    {
      this.id, this.detail := id, detail;
    }
  }

  class Proxy {
    const id: int

    constructor (id: int)
      ensures this.id == id
    {
      this.id := id;
    }
  }

  class UsageLog {
    const id: int
    const accountID: int

    constructor (id: int, accountID: int)
      ensures this.id == id && this.accountID == accountID
    {
      this.id, this.accountID := id, accountID;
    }
  }

  /** Why an edge accessor has nothing to return. */
  datatype EdgeError = NotLoaded | NotFound

  /** An entity of the join table between accounts and groups. */
  class AccountGroup {
    const accountID: int
    const groupID: int
    var account: Account?
    var group: Group?
    var accountLoaded: bool
    var groupLoaded: bool

    constructor (accountID: int, groupID: int)
      ensures this.accountID == accountID && this.groupID == groupID
      ensures account == null && group == null && !accountLoaded && !groupLoaded
    {
      this.accountID, this.groupID := accountID, groupID;
      account, group, accountLoaded, groupLoaded := null, null, false, false;
    }
  }

  /** Which edges of an account were asked for. */
  datatype LoadedTypes = LoadedTypes(groups: bool, proxy: bool, usageLogs: bool, accountGroups: bool)

  class Account {
    var id: int
    var proxyID: Option<int>
    var fields: map<Column, int>
    var selected: map<Column, Option<int>>
    var groups: seq<Group>
    var proxy: Proxy?
    var usageLogs: seq<UsageLog>
    var accountGroups: seq<AccountGroup>
    var loadedTypes: LoadedTypes

    constructor ()
      ensures Scalars() == EMPTY
      ensures groups == [] && proxy == null && usageLogs == [] && accountGroups == []
      ensures loadedTypes == LoadedTypes(false, false, false, false)
    {
      id, proxyID, fields, selected := 0, None, map[], map[];
      groups, proxy, usageLogs, accountGroups := [], null, [], [];
      loadedTypes := LoadedTypes(false, false, false, false);
    }

    /** The part of the account that a row determines. */
    function Scalars(): Record
      reads this`id, this`proxyID, this`fields, this`selected
    {
      Record(id, proxyID, fields, selected)
    }

    /** Assigns scanned values to the fields, column by column; fails on too few values, or on the first value that
        has the wrong type or does not decode. */
    method AssignValues(columns: seq<Column>, values: seq<Holder>, json: int -> bool) returns (ok: bool)
      modifies this`id, this`proxyID, this`fields, this`selected
      ensures ok <==> |columns| <= |values| && forall i :: 0 <= i < |columns| ==>
                        Assignable(columns[i], values[i].kind) && Decodable(columns[i], values[i].value, json)
      ensures ok ==> Scalars() == Assigned(columns, values, old(Scalars()))
    {
      if |values| < |columns| {
        return false;
      }
      for i := 0 to |columns|
        invariant forall j :: 0 <= j < i ==>
                    Assignable(columns[j], values[j].kind) && Decodable(columns[j], values[j].value, json)
        invariant Scalars() == Assigned(columns[..i], values, old(Scalars()))
      {
        var c, v := columns[i], values[i];
        if !Assignable(c, v.kind) || !Decodable(c, v.value, json) {
          return false;
        }
        AssignedStep(columns, values, old(Scalars()), i);
        if c.ID? {
          id := if v.value.Some? then v.value.value else 0;
        } else if c.Other? {
          selected := selected[c := v.value];
        } else if v.value.Some? {
          if c.ProxyID? {
            proxyID := v.value;
          } else {
            fields := fields[c := v.value.value];
          }
        }
      }
      assert columns[..|columns|] == columns;
      return true;
    }

    /** The loaded groups, or an error if the edge was not asked for. */
    function GroupsOrErr(): Result<seq<Group>, EdgeError>
      reads this
    {
      if loadedTypes.groups then Ok(groups) else Err(NotLoaded)
    }

    /** The loaded proxy, or an error if the edge was not asked for or has no neighbour. */
    function ProxyOrErr(): Result<Proxy, EdgeError>
      reads this
    {
      if proxy != null then Ok(proxy)
      else if loadedTypes.proxy then Err(NotFound)
      else Err(NotLoaded)
    }

    function UsageLogsOrErr(): Result<seq<UsageLog>, EdgeError>
      reads this
    {
      if loadedTypes.usageLogs then Ok(usageLogs) else Err(NotLoaded)
    }

    function AccountGroupsOrErr(): Result<seq<AccountGroup>, EdgeError>
      reads this
    {
      if loadedTypes.accountGroups then Ok(accountGroups) else Err(NotLoaded)
    }
  }
}
