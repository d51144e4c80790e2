/** The usage log query, as far as the account loader drives it: a column list that may be narrowed, an answer to a
    list of account ids, and the loading of the logs' own edges, of which only the outcome is modelled. */
module UsageLogQueries {
  import opened Wrappers
  import opened Entities
  import opened EdgeSpecs

  /** The two columns the account loader is about; any other column; and a name that is not a column. */
  datatype LogColumn = LogID | LogAccountID | LogOther(name: string) | LogInvalid(name: string)

  datatype LogRow = LogRow(id: int, accountID: int)

  /** A scanned log carries its row's id, and its row's account if that column was selected; otherwise 0. */
  ghost predicate Scanned(logs: seq<UsageLog>, rows: seq<LogRow>, selected: bool) {
    && |logs| == |rows|
    && forall i :: 0 <= i < |logs| ==>
         && logs[i].id == rows[i].id
         && logs[i].accountID == (if selected then rows[i].accountID else 0)
  }

  class UsageLogQuery {
    var fields: seq<LogColumn>
    const rows: seq<int> -> Result<seq<LogRow>, Error>
    const withAccount: bool
    const ownEdges: seq<LogRow> -> Option<Error>

    constructor (fields: seq<LogColumn>, rows: seq<int> -> Result<seq<LogRow>, Error>, withAccount: bool,
                 ownEdges: seq<LogRow> -> Option<Error>)
      ensures this.fields == fields && this.rows == rows && this.withAccount == withAccount && this.ownEdges == ownEdges
    {
      this.fields, this.rows, this.withAccount, this.ownEdges := fields, rows, withAccount, ownEdges;
    }

    /** Adds a field to a narrowed selection. */
    method AppendFieldOnce(c: LogColumn)
      modifies this`fields
      ensures fields == if c in old(fields) then old(fields) else old(fields) + [c]
    {
      if c !in fields {
        fields := fields + [c];
      }
    }

    /** The account column is selected. */
    predicate SelectsAccount(fs: seq<LogColumn>) {
      fs == [] || LogAccountID in fs || withAccount
    }

    /** The error the query ends with, when it selects fs. */
    function ErrorFor(ids: seq<int>, fs: seq<LogColumn>): Option<Error> {
      if exists c :: c in fs && c.LogInvalid? then Some(InvalidField)
      else if rows(ids).Err? then Some(rows(ids).error)
      else if rows(ids).value == [] then None
      else ownEdges(rows(ids).value)
    }

    method All(ids: seq<int>) returns (r: Result<seq<UsageLog>, Error>)
      ensures match ErrorFor(ids, fields) case Some(e) => r == Err(e) case None => r.Ok?
      ensures r.Ok? ==> rows(ids).Ok? && Scanned(r.value, rows(ids).value, SelectsAccount(fields))
      ensures r.Ok? ==> forall x :: x in r.value ==> fresh(x)
    {
      if exists c :: c in fields && c.LogInvalid? {
        return Err(InvalidField);
      }
      var found := rows(ids);
      if found.Err? {
        return Err(found.error);
      }
      var logs: seq<UsageLog> := [];
      for i := 0 to |found.value|
        invariant Scanned(logs, found.value[..i], SelectsAccount(fields))
        invariant forall x :: x in logs ==> fresh(x)
      {
        var log := new UsageLog(found.value[i].id, if SelectsAccount(fields) then found.value[i].accountID else 0);
        logs := logs + [log];
      }
      assert found.value[..|found.value|] == found.value;
      if logs == [] {
        return Ok(logs);
      }
      var e := ownEdges(found.value);
      r := if e.Some? then Err(e.value) else Ok(logs);
    }
  }
}
