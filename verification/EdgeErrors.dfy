/** With which error a run ends: what each edge reports, read off the answers of its query, and which edge it is. */
module EdgeErrors {
  import opened Wrappers
  import opened Sequences
  import opened Entities
  import opened EdgeSpecs
  import opened KeyGroups
  import opened AccountGroupQueries
  import opened AccountQueries
  import opened AccountSqlAll
  import UsageLogQueries

  // ---------- the fields the edge queries are sent with ----------

  /** A log query without a narrowed selection is sent as it is; a narrowed one has the foreign key appended, unless it
      is there already. */
  lemma LogFieldsSentMeaning(fs: seq<UsageLogQueries.LogColumn>)
    ensures fs <= LogFieldsSent(fs)
    ensures forall c :: c in LogFieldsSent(fs) <==> c in fs || (fs != [] && c == UsageLogQueries.LogAccountID)
    ensures fs == [] || UsageLogQueries.LogAccountID in fs ==> LogFieldsSent(fs) == fs
    ensures |LogFieldsSent(fs)| <= |fs| + 1
  {
  }

  /** The same for the query over join entities. */
  lemma FieldsSentMeaning(fs: seq<LinkColumn>)
    ensures fs <= FieldsSent(fs)
    ensures forall c :: c in FieldsSent(fs) <==> c in fs || (fs != [] && c == LinkAccountID)
    ensures fs == [] || LinkAccountID in fs ==> FieldsSent(fs) == fs
    ensures |FieldsSent(fs)| <= |fs| + 1
  {
  }

  // ---------- the errors of the single edges ----------

  /** The error is that of the first id nobody asked for; there is none if there is no such id. */
  ghost predicate FirstUnasked(found: seq<int>, ids: seq<int>, e: Option<Error>) {
    match e
    case None => forall x :: x in found ==> x in ids
    case Some(e) => exists i :: 0 <= i < |found| && e == UnexpectedNode(found[i]) && found[i] !in ids &&
                                forall j :: 0 <= j < i ==> found[j] in ids
  }

  lemma KeysErrorMeaning(found: seq<int>, ids: seq<int>)
    ensures FirstUnasked(found, ids, ErrorOf(KeysOutcome(found, ids)))
  {
    var o := KeysOutcome(found, ids);
    if o.Unexpected? {
      var i :| 0 <= i < |found| && found[i] == o.id && forall k :: k in found[..i] ==> k in ids;
      forall j | 0 <= j < i
        ensures found[j] in ids
      {
        assert found[..i][j] == found[j];
      }
    }
  }

  /** The groups edge fails with an error of preparing its query before anything else. Then an interceptor that answers
      on its own decides alone, and its groups are all unexpected. An interceptor around the query decides on what was
      scanned, or on the error that broke the stream off; what it hands on is joined with the rows that were streamed,
      those before the error included, up to the first group without owners, or with an owner nobody asked about. */
  lemma GroupsErrorMeaning(q: AccountQuery, ids: seq<int>, fetched: seq<Group>)
    requires q.withGroups.Some?
    ensures var g, e := q.withGroups.value, q.GroupsError(ids, fetched);
            if g.prepareError.Some? then e == g.prepareError
            else match g.interception
                 case Instead(Err(x)) => e == Some(x)
                 case Instead(Ok(ns)) => e == if ns == [] then None else Some(UnexpectedNode(ns[0].id))
                 case Around(after) =>
                   var broken := g.answer(ids).error;
                   match after(if broken.Some? then Err(broken.value) else Ok(fetched))
                   case Err(x) => e == Some(x)
                   case Ok(ns) => JoinFails(ns, g.answer(ids).rows, ids, e)
  {
    var g := q.withGroups.value;
    if g.prepareError.None? {
      match g.interception {
        case Instead(Ok(ns)) =>
          if ns != [] {
            JoinErrorMeaning(ns, [], ids);
          }
        case Around(after) =>
          var broken := g.answer(ids).error;
          var handed := after(if broken.Some? then Err(broken.value) else Ok(fetched));
          if handed.Ok? {
            JoinErrorMeaning(handed.value, g.answer(ids).rows, ids);
          }
        case _ =>
      }
    }
  }

  /** Why joining neighbours with the streamed rows fails, if it does. */
  ghost predicate JoinFails(ns: seq<Group>, rows: seq<JoinRow>, ids: seq<int>, e: Option<Error>) {
    match e
    case None => forall n :: n in ns ==> Known(rows, n.id) && !Orphaned(rows, ids, n.id)
    case Some(e) => exists i ::
      && 0 <= i < |ns|
      && (forall j :: 0 <= j < i ==> Known(rows, ns[j].id) && !Orphaned(rows, ids, ns[j].id))
      && if Known(rows, ns[i].id) then Orphaned(rows, ids, ns[i].id) && e == NilDereference
         else e == UnexpectedNode(ns[i].id)
  }

  lemma JoinErrorMeaning(ns: seq<Group>, rows: seq<JoinRow>, ids: seq<int>)
    ensures JoinFails(ns, rows, ids, ErrorOf(JoinOutcome(ns, rows, ids)))
  {
    var o := JoinOutcome(ns, rows, ids);
    if !o.Loaded? {
      var i :| 0 <= i < |ns| && StopsAt(ns, rows, ids, i, o);
      assert Known(rows, ns[i].id) ==> o == NilOwner;
    }
  }

  /** The proxy edge fails if its query does, or at the first returned proxy nobody asked for. Without a key its query
      is not asked. */
  lemma ProxyErrorMeaning(q: AccountQuery, keys: seq<Option<int>>)
    requires q.withProxy.Some?
    ensures (forall k :: k in keys ==> k.None?) ==> q.ProxyError(keys).None?
    ensures (exists k :: k in keys && k.Some?) ==>
              var ids := FirstSeen(Somes(keys));
              match q.withProxy.value(ids)
              case Err(x) => q.ProxyError(keys) == Some(x)
              case Ok(ns) => FirstUnasked(ProxyIDs(ns), ids, q.ProxyError(keys))
  {
    var ids := FirstSeen(Somes(keys));
    SomesMeaning(keys);
    FirstSeenMeaning(Somes(keys));
    if ids != [] {
      var k := ids[0];
      assert k in ids && k in Somes(keys);
      assert Some(k) in keys;
      if q.withProxy.value(ids).Ok? {
        KeysErrorMeaning(ProxyIDs(q.withProxy.value(ids).value), ids);
      }
    }
    if key :| key in keys && key.Some? {
      var k := key.value;
      assert key == Some(k);
      assert k in Somes(keys) && k in ids;
    }
  }

  /** The log edge fails on a field that is no column, then if its query does, then, for some logs, if their own edges
      do, and then at the first log of an account nobody asked about. */
  lemma LogsErrorMeaning(q: AccountQuery, ids: seq<int>, fs: seq<UsageLogQueries.LogColumn>)
    requires q.withUsageLogs.Some?
    ensures var logs, e := q.withUsageLogs.value, q.LogsError(ids, fs);
            if exists c :: c in fs && c.LogInvalid? then e == Some(InvalidField)
            else match logs.rows(ids)
                 case Err(x) => e == Some(x)
                 case Ok(rows) =>
                   if rows != [] && logs.ownEdges(rows).Some? then e == logs.ownEdges(rows)
                   else FirstUnasked(LogRowKeys(rows), ids, e)
  {
    var logs := q.withUsageLogs.value;
    LogFieldsSentMeaning(fs);
    if logs.rows(ids).Ok? {
      KeysErrorMeaning(LogRowKeys(logs.rows(ids).value), ids);
    }
  }

  /** The join entity edge fails likewise, where its own edges are the accounts and then the groups of its rows. */
  lemma LinksErrorMeaning(q: AccountQuery, ids: seq<int>, fs: seq<LinkColumn>, answered: seq<int>)
    requires q.withAccountGroups.Some?
    ensures var links, e := q.withAccountGroups.value, q.LinksError(ids, fs, answered);
            if exists c :: c in fs && c.LinkOther? then e == Some(InvalidField)
            else match links.rows(ids)
                 case Err(x) => e == Some(x)
                 case Ok(rows) =>
                   var a := links.AccountError(ids, FieldsSent(fs), answered);
                   var g := links.GroupError(ids, FieldsSent(fs));
                   if rows != [] && a.Some? then e == a
                   else if rows != [] && g.Some? then e == g
                   else FirstUnasked(LinkRowKeys(rows), ids, e)
  {
    var links := q.withAccountGroups.value;
    FieldsSentMeaning(fs);
    if links.rows(ids).Ok? {
      KeysErrorMeaning(LinkRowKeys(links.rows(ids).value), ids);
    }
  }

  /** The own edges of join entities ask for the keys of the rows, and fail if their queries do, or at the first entity
      nobody asked for. */
  lemma OwnEdgesErrors(links: AccountGroupQuery, ids: seq<int>, fs: seq<LinkColumn>, answered: seq<int>)
    requires links.rows(ids).Ok? && links.rows(ids).value != []
    ensures links.withAccount.Some? ==>
              var asked := links.AskedAccounts(ids, fs);
              && NoDup(asked)
              && (forall k :: k in asked <==> exists r :: r in links.rows(ids).value && r.accountID == k)
              && match links.withAccount.value(asked)
                 case Err(x) => links.AccountError(ids, fs, answered) == Some(x)
                 case Ok(ns) =>
                   && links.AnsweredAccounts(ids, fs) == ns
                   && FirstUnasked(answered, asked, links.AccountError(ids, fs, answered))
    ensures links.withGroup.Some? ==>
              var asked := links.AskedGroups(ids, fs);
              && NoDup(asked)
              && (forall k :: k in asked <==> exists r :: r in links.rows(ids).value && r.groupID == k)
              && match links.withGroup.value(asked)
                 case Err(x) => links.GroupError(ids, fs) == Some(x)
                 case Ok(ns) => FirstUnasked(GroupIDs(ns), asked, links.GroupError(ids, fs))
  {
    var rows := links.rows(ids).value;
    if links.withAccount.Some? {
      var keys := AccountKeysOf(rows, links.ColumnsFor(fs));
      KeysAreAsked(rows, keys, (r: LinkRow) => r.accountID);
      KeysErrorMeaning(answered, links.AskedAccounts(ids, fs));
    }
    if links.withGroup.Some? {
      var asked := links.AskedGroups(ids, fs);
      KeysAreAsked(rows, GroupKeysOf(rows, links.ColumnsFor(fs)), (r: LinkRow) => r.groupID);
      if links.withGroup.value(asked).Ok? {
        KeysErrorMeaning(GroupIDs(links.withGroup.value(asked).value), asked);
      }
    }
  }

  /** What a run finds before it asks its edge queries: the fields they select, and, if there are join entities with
      accounts, the ids of the accounts that are answered for what will be sent. */
  lemma FoundMeaning(q: AccountQuery, ids: seq<int>)
    ensures q.withUsageLogs.Some? ==> q.Found(ids).logFields == q.withUsageLogs.value.fields
    ensures q.withAccountGroups.Some? ==>
              var links := q.withAccountGroups.value;
              && q.Found(ids).linkFields == links.fields
              && q.Found(ids).answered == IDs(links.AnsweredAccounts(ids, FieldsSent(links.fields)))
  {
  }

  /** The distinct keys of some rows are asked for. */
  lemma KeysAreAsked(rows: seq<LinkRow>, keys: seq<Option<int>>, key: LinkRow -> int)
    requires |keys| == |rows| && rows != [] && forall i :: 0 <= i < |rows| ==> keys[i] == Some(key(rows[i]))
    ensures var asked := FirstSeen(Somes(keys));
            asked != [] && NoDup(asked) && forall k :: k in asked <==> exists r :: r in rows && key(r) == k
  {
    SomesMeaning(keys);
    FirstSeenMeaning(Somes(keys));
    forall k
      ensures Some(k) in keys <==> exists r :: r in rows && key(r) == k
    {
      if Some(k) in keys {
        var i :| 0 <= i < |keys| && keys[i] == Some(k);
        assert rows[i] in rows;
      }
      if r :| r in rows && key(r) == k {
        var i :| 0 <= i < |rows| && rows[i] == r;
        assert keys[i] == Some(k);
      }
    }
    assert rows[0] in rows;
    assert key(rows[0]) in FirstSeen(Somes(keys));
  }

  // ---------- the error of a run ----------

  /** The edges are loaded in a fixed order, groups, proxy, usage logs, join entities, and the first one that fails
      decides: no later edge does, and no earlier one failed. */
  lemma FirstFailingEdge(q: AccountQuery, ids: seq<int>, keys: seq<Option<int>>, fetched: seq<Group>, f: EdgeState)
    ensures var errors := [q.GroupsError(ids, fetched), q.ProxyError(keys), q.LogsError(ids, f.logFields),
                           q.LinksError(ids, f.linkFields, f.answered)];
            match q.EdgesError(ids, keys, fetched, f)
            case None => forall i :: 0 <= i < 4 ==> errors[i].None?
            case Some(e) => exists i :: 0 <= i < 4 && errors[i] == Some(e) && forall j :: 0 <= j < i ==> errors[j].None?
  {
    var errors := [q.GroupsError(ids, fetched), q.ProxyError(keys), q.LogsError(ids, f.logFields),
                   q.LinksError(ids, f.linkFields, f.answered)];
    assert errors[0] == q.GroupsError(ids, fetched) && errors[1] == q.ProxyError(keys);
    assert errors[2] == q.LogsError(ids, f.logFields) && errors[3] == q.LinksError(ids, f.linkFields, f.answered);
  }
}
