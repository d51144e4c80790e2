# Eager loading, bulk creation and the audit gate

This project models three pieces of the repository that hold real algorithms, and proves what they compute.

**Eager loading of edges** (`backend/ent/account_query.go`, `backend/ent/accountgroup_query.go`,
`backend/ent/account.go`). An account query scans rows into account objects and then loads the requested edges with
hand-written hash joins: maps over the nodes, one edge query, and appends or pointer writes into the nodes. The model
keeps the objects and the in-place writes (`Entities`, `AccountQueries`, `AccountGroupQueries`, `UsageLogQueries`,
`AccountSqlAll`). A database is a function from the list of ids a loader sends to rows or an error, so every theorem
holds for every answer: repeated rows, rows in any order, rows nobody asked for, errors. The Go map of owners in
`loadGroups` is visited in an arbitrary order (`Distribute` picks an arbitrary remaining owner), so a contract that
fixes the final groups of every account says that the order does not matter. `EdgeSpecs` holds the plain joins,
`EdgeTheorems` what they mean, `EdgeErrors` with which error a run ends, `Narrowing` that selecting other fields changes
none of it, and `SnapshotAgreement` how the loaders agree on one snapshot.

**Hooks and bulk creation** (`backend/ent/ent.go`, `backend/ent/account_create.go`). `Hooks` models the generic fold
of hooks and interceptors with first-class functions over an explicit state. `BulkCreate` models
`AccountCreateBulk.Save`: Go closures become data (a mutator is a core under hooks), mutation objects become entries
of a store that builders point into, a builder may be listed at several positions, and a hook may edit its mutation in
place, refuse, answer on its own, pass on another mutation, retry after an error and turn the outcome into another
one. `Exec` is the run as a function; the methods of the class `AccountCreateBulk` change the fields step by step and
are proved to compute `Exec`; `BulkCourse` follows only its way down, to the batch; `BulkTheorems`, `BulkOutcome`,
`BulkReports` and `BulkNesting` prove facts about every run.

**The audit-exception gate** (`tools/check_pnpm_audit_exceptions.py`). `ExceptionList` is the line parser, proved
against a block-wise reading of the lines; `AuditFindings` is the generator of findings; `GateCore` and `AuditGate`
are the index, the deduplicating scan and the exit code, proved against a declarative promise; `GateReport` says what is
reported when the promise does not hold, `GateTheorems` what changes the verdict and what does not; `ScriptTheorems`
says it on the records of the file and the findings of the report, and `WholeScript` on the lines of the file and the
report itself.

## What turned out not to hold

- Accounts with the same id: only the last of them in the result receives list edges, the others stay empty
  (`EdgeSpecs.GroupsLoaded`, `EdgeTheorems.ShadowedAccountIsEmpty`).
- The groups of an account are ordered by the first appearance of each group in the whole stream. This is the order of
  the account's own rows if and only if the stream meets its groups in that order (`EdgeTheorems.OwnOrderKeptIff`), which
  fails for interleaved rows (`EdgeTheorems.InterleavedOrder`).
- A bulk save whose hooks call on at most once and hand errors on need not be all-or-nothing
  (`BulkOutcome.PropagatingIsNotEnough`). `BulkOutcome.AllOrNothingIff` says exactly when it is, for all such hooks,
  databases and batches, and `BulkOutcome.TransparentIsAllOrNothing` gives a condition on the hooks alone.
- `Save` of a bulk checks the builder's mutation before it takes the one its hooks passed on, so a replaced mutation is
  inserted unchecked (`BulkTheorems.ReplacementIsNotChecked`). The batch passes the check exactly if what the hooks of
  each builder pass on does (`BulkCourse.IssuedBatch`, `BulkCourse.ReachedIffEachSends`). A single create checks the
  replaced mutation, because `withHooks` copies it into the builder first (`Hooks.ExecutesOnRewritten`).
- A builder listed twice holds, the second time, what its hooks passed on the first time, so that the replacement is
  checked after all (`BulkCourse.ListedTwice`).
- An interceptor of the groups edge that answers without running the query, as a cache would, makes loading fail unless
  it answers nothing, because owners are only recorded while rows are scanned (`AccountQueries.InsteadOutcome`).
- `Save` of a bulk ignores the error of `defaults`. This is harmless as long as no hook fills the field in: the check
  that follows fails whenever the defaults did (`AccountMutations.DefaultsThenCheck`).
- Deduplication weakens the audit gate on severity: a later finding of the same key and another severity is not looked
  at (`GateTheorems.OrderMatters`). It is harmless exactly for reports whose findings of one key agree on their severity,
  and for those that no exceptions could make pass (`GateTheorems.DedupHarmlessIff`,
  `ScriptTheorems.ReportDedupHarmlessIff`); for given exceptions, the gate without deduplication passes if and only if
  the gate passes for every order of the findings (`GateTheorems.StrictIffEveryOrder`).
- Narrowing the selected fields never changes the loaded edges, but it can make a query succeed that fails in full
  (`Narrowing.NarrowingHidesPayload`): a JSON payload is decoded exactly if its column is selected
  (`Narrowing.DecodableIff`).
- A line with a bare dash is not an item of the exception list, so that the pairs after it overwrite those of the record
  above (`ExceptionList.IgnoredLinesAreFree`).

## Model

| member | source | states |
|---|---|---|
| `AccountColumns.ScanValues` | backend/ent/account.go:138-159 | one empty scan target per selected column, of the type that column is scanned into |
| `AccountColumns.ScanThenAssign` | backend/ent/account.go:138-366 | scanning asks for exactly the types assigning expects, so the "unexpected type" errors cannot occur on scanned rows |
| `AccountColumns.RowDecodes` | backend/ent/account.go:163-366 | assigning the scanned values of a row yields its keys, its non-NULL fields and its values of other columns, restricted to the selected columns, for any order and repetition of columns |
| `AccountColumns.NodeColumnsMeaning` | backend/ent/account_query.go:709-727 | the id column comes first and exactly once, every requested field is selected, the proxy key is selected when its edge is loaded, nothing else is; without requested fields every column of the table is selected exactly once |
| `AccountColumns.AllColumnsMeaning` | backend/ent/account/account.go:113-143 | the table's column list holds each of the 29 columns exactly once and no other name |
| `AccountColumns.WithoutIDOrder` | backend/ent/account_query.go:719-723 | the requested fields are selected in order and as often as they were requested, apart from the id |
| `AccountColumns.NarrowingKeepsKeys` | backend/ent/account_query.go:716-727 | a narrowed selection decodes the same id, and with the proxy edge the same proxy key, as the full one |
| `Entities.Account.AssignValues` | backend/ent/account.go:163-366 | succeeds exactly if there are enough values, all have the expected types and the JSON payloads decode; then the account holds the decoded record |
| `EdgeSpecs.ByIDMeaning` | backend/ent/account_query.go:544-548 | the map over the nodes has exactly their ids, and a later node replaces an earlier one with its id |
| `EdgeSpecs.DistinctIDsOwn` | backend/ent/account_query.go:544-548 | with pairwise distinct ids every account receives the neighbours of its id |
| `EdgeSpecs.JoinOutcome` | backend/ent/account_query.go:592-600 | distributing the neighbours succeeds if and only if each one has a row and none has a row of an account that was not asked about; otherwise it ends at the first neighbour that fails: one without a row is named, and one with such a row meets a nil owner |
| `EdgeSpecs.FetchedOutcome` | backend/ent/account_query.go:566-600 | if nothing is intercepted, it succeeds if and only if every row's account was asked about, and meets a nil owner otherwise |
| `EdgeSpecs.KeysOutcome` | backend/ent/account_query.go:655-662 | assignment succeeds if and only if every neighbour's key was asked for, otherwise it names the first key that was not |
| `AccountQueries.ScanJoinRows` | backend/ent/account_query.go:566-585 | one group object per distinct group, from its first row; every row's account is recorded as an owner of its group |
| `AccountQueries.Distribute` | backend/ent/account_query.go:592-600 | whatever the order in which owners are visited, every account gets the neighbours it owns, in neighbour order; the first unknown neighbour is an error |
| `AccountQueries.DistributeJoin` | backend/ent/account_query.go:592-601 | distributing over the recorded owners is the join on the rows |
| `AccountQueries.LoadGroups` | backend/ent/account_query.go:542-602 | asks with exactly the nodes' ids; ends with the error of the preparation or the one the interceptors hand on, or as distributing what they hand on does; if nothing fails or is intercepted, succeeds if and only if every row's account is a node; on success every account's groups are the join |
| `AccountQueries.FetchGroups` | backend/ent/account_query.go:549-591 | interceptors that run the query get its groups or its error and may turn that into anything, the rows streamed before an error counting as scanned; interceptors that answer on their own leave no owner recorded |
| `AccountQueries.InsteadOutcome` | backend/ent/account_query.go:592-597 | under an interceptor that answers on its own the loader succeeds if and only if the answer is empty |
| `AccountQueries.LoadProxy` | backend/ent/account_query.go:603-634 | asks with the distinct keys in first-appearance order, or not at all; on success every account with a key points at the last proxy with it in exactly that answer, if any; accounts without a key are untouched; fails exactly on a query error or an id not asked for |
| `AccountQueries.LoadUsageLogs` | backend/ent/account_query.go:635-664 | on success every account's logs are the returned rows with its id, in order, whatever fields were selected; otherwise ends with the error of the query or at the first row whose key is no account's |
| `AccountQueries.FetchLogs` | backend/ent/account_query.go:645-654 | a narrowed selection gets the foreign key back, and keeps it, so that fetched logs carry their rows' account ids; ends with exactly the error of the query |
| `AccountQueries.LoadAccountGroups` | backend/ent/account_query.go:665-694 | on success every account's join entities are the returned rows with its id, in order, with their own edges loaded; otherwise ends with the error of the query, its own edges included, or at the first row whose key is no account's |
| `AccountQueries.FetchLinks` | backend/ent/account_query.go:675-684 | a narrowed selection gets the foreign key back, and keeps it, so that fetched join entities carry their rows' account ids, and their group ids if selected; ends with exactly the error of the query, its own edges included |
| `KeyGroups.GroupByKey` | backend/ent/account_query.go:604-615 | the distinct non-nil keys in first-appearance order, and under each key exactly its nodes, in order |
| `KeyGroups.WithKeyMeaning` | backend/ent/account_query.go:604-615 | a node is collected under a key exactly if it carries it |
| `KeyGroups.WithKeyOrder` | backend/ent/account_query.go:604-615 | the nodes under a key are those at exactly the positions that carry it, in node order |
| `KeyGroups.GroupsPartition` | backend/ent/account_query.go:604-615 | over the distinct keys the group sizes add up to the number of nodes with a key |
| `KeyGroups.GroupsHoldAll` | backend/ent/account_query.go:604-662 | over distinct keys, among which every node's is, the groups together hold every node exactly as often as the list does |
| `Sequences.FirstSeenMeaning` | backend/ent/account_query.go:604-615 | collecting keys that are not in the map yet lists each key exactly once |
| `Sequences.FirstSeenOrdered` | backend/ent/account_query.go:604-615 | ... ordered by first appearance |
| `AccountGroupQueries.LoadAccount` | backend/ent/accountgroup_query.go:379-407 | every join entity points at the last returned account with its key; fails exactly on a query error or an id not asked for |
| `AccountGroupQueries.LoadGroup` | backend/ent/accountgroup_query.go:408-436 | the same for the group edge |
| `AccountGroupQueries.LinkColumns` | backend/ent/accountgroup_query.go:448-467 | every requested field and the keys of the loaded edges are selected and nothing else; without requested fields all four columns are, once each |
| `AccountGroupQueries.AccountGroupQuery.All` | backend/ent/accountgroup_query.go:334-378 | fresh join entities with their rows' selected keys and the requested edges loaded; otherwise exactly the first error among an invalid field, the query, and an edge answer that is an error or holds something not asked for |
| `UsageLogQueries.UsageLogQuery.All` | backend/ent/usagelog_query.go:489-530 | fresh logs that carry their rows' ids, and their account ids if that column is selected; otherwise exactly the first error among an invalid field, the query, and the logs' own edges |
| `AccountSqlAll.AccountQuery.QuerySpec` | backend/ent/account_query.go:708-727 | the loop over the fields builds the column list that `NodeColumnsMeaning` characterises, and without fields it is the whole table's |
| `AccountSqlAll.AccountQuery.ScanNodes` | backend/ent/account_query.go:490-498 | one fresh account per row that holds the decoded row restricted to the selected columns, with the row's id and, for the proxy edge, key, for any selected fields; an error exactly if a selected value does not decode |
| `AccountSqlAll.AccountQuery.RowsHeld` | backend/ent/account_query.go:490-498 | scanned accounts hold their rows, stated on the row: with no fields requested, every value that is not NULL, under its column |
| `AccountSqlAll.AccountQuery.LoadEdges` | backend/ent/account_query.go:511-538 | the four loaders in order; ends with the error of the first edge that fails, where the groups edge is judged on what its query streamed; exactly the loaders that are reached add the foreign key to their query's selection |
| `AccountSqlAll.AccountQuery.SqlAll` | backend/ent/account_query.go:480-540 | on success every account holds its row's id, proxy key and every selected value that is not NULL, without requested fields every one of the row, every requested edge is the join of the rows' ids and proxy keys with the edge answers, and every other edge is empty; an empty result asks no edge query; otherwise exactly the error of decoding a streamed row, of the stream, or of the first requested edge that fails, where on success and on failure what was fetched for the groups edge is what its query streamed; which fields the edge queries select afterwards |
| `EdgeTheorems.JoinIsNestedLoop` | backend/ent/account_query.go:566-600 | the loaded groups are exactly those with a row for the account, each once, in the order of first appearance in the stream |
| `EdgeTheorems.FirstRowsAreFirst` | backend/ent/account_query.go:576-585 | a group object is made from the first row of the stream that has its id |
| `EdgeTheorems.JoinedOrder` | backend/ent/account_query.go:592-600 | whatever the interceptors hand on, an account's groups are the handed groups at exactly the positions that are linked to it, in order |
| `EdgeTheorems.EveryAccountGetsItsJoin` | backend/ent/account_query.go:542-602 | with distinct ids every account ends up with exactly the groups that have a row with it, each once, in order of first appearance |
| `EdgeTheorems.OwnOrderKeptIff` | backend/ent/account_query.go:576-600 | the groups come in the order of the account's own rows if and only if the stream meets them in that order |
| `EdgeTheorems.InterleavedOrder` | backend/ent/account_query.go:576-600 | two interleaved accounts for which it does not |
| `EdgeTheorems.ShadowedAccountIsEmpty` | backend/ent/account_query.go:544-551 | an account followed by another one with its id ends with empty list edges |
| `EdgeTheorems.EveryLogIsHeldOnce` | backend/ent/account_query.go:635-664 | accounts with distinct ids each hold their own logs in order, and together every log exactly as often as the answer |
| `EdgeTheorems.LogsOfOrder` | backend/ent/account_query.go:655-662 | an account's logs are those at exactly the positions of the answer that carry its id, in order |
| `EdgeTheorems.EveryLinkIsHeldOnce` | backend/ent/account_query.go:665-694 | the same for join entities |
| `EdgeTheorems.LinksOfOrder` | backend/ent/account_query.go:685-693 | the same for join entities |
| `EdgeTheorems.LastProxyMeaning` | backend/ent/account_query.go:624-632 | the assigned proxy is the last neighbour with the key, and none is assigned exactly if none has it |
| `EdgeTheorems.LastGroupMeaning` | backend/ent/accountgroup_query.go:424-434 | the same for the group edge of a join entity |
| `EdgeTheorems.LastAccountMeaning` | backend/ent/accountgroup_query.go:395-405 | the same for its account edge |
| `EdgeTheorems.AccessorsReport` | backend/ent/account.go:99-135 | "not loaded" exactly when the edge was not requested; "not found" exactly when the proxy was requested and the key is nil or no proxy in the answer to the distinct keys has it; otherwise the loaded edge, which for the proxy is the last one of that answer with the key |
| `EdgeErrors.GroupsErrorMeaning` | backend/ent/account_query.go:549-600 | the groups edge fails with an error of preparing first; an interceptor that answers on its own decides alone; one around the query decides on what was scanned or on the error that broke the stream off, and what it hands on is joined with the rows streamed until then, up to the first group without owners or with one nobody asked about |
| `EdgeErrors.ProxyErrorMeaning` | backend/ent/account_query.go:616-632 | the proxy edge fails with its query's error or at the first proxy nobody asked for; without a key it asks nothing and does not fail |
| `EdgeErrors.LogsErrorMeaning` | backend/ent/account_query.go:645-662 | the log edge fails on a field that is no column, then on the error of the rows, then of the logs' own edges, then at the first log of an account nobody asked about |
| `EdgeErrors.LinksErrorMeaning` | backend/ent/account_query.go:675-693 | likewise for join entities, whose own edges are the account and then the group |
| `EdgeErrors.OwnEdgesErrors` | backend/ent/accountgroup_query.go:365-436 | the own edges of join entities ask for exactly the distinct keys of the rows, and fail with their query's error or at the first entity nobody asked for |
| `EdgeErrors.FirstFailingEdge` | backend/ent/account_query.go:511-538 | a run ends with the error of the first failing edge in the order groups, proxy, usage logs, join entities, and with none exactly if none fails |
| `EdgeErrors.LogFieldsSentMeaning` | backend/ent/account_query.go:645-647 | a narrowed log query is sent with its fields and the foreign key, an unnarrowed one as it is |
| `EdgeErrors.FieldsSentMeaning` | backend/ent/account_query.go:675-677 | the same for the query over join entities |
| `Narrowing.NarrowingKeepsEdges` | backend/ent/account_query.go:480-540 | two successful runs on the same rows and answers that select different fields give the accounts of each row the same edges, provided interceptors hand on the same groups |
| `Narrowing.RunTwice` | backend/ent/account_query.go:480-540 | two runs, one after the other, that share their edge queries and select different fields, under interceptors that do not tell them apart: if both decode their rows, both succeed or both fail with the same error; if both succeed, the same edges; a full run that succeeds makes the narrowed one succeed |
| `Narrowing.NarrowingKeepsErrors` | backend/ent/account_query.go:511-538 | the edges fail with the same error whatever fields were selected, given what the groups query streamed |
| `Narrowing.DecodableIff` | backend/ent/account.go:219-234 | the rows decode if and only if the payloads of the selected JSON columns do |
| `Narrowing.NarrowingHidesPayload` | backend/ent/account.go:219-234 | a row whose full selection fails and whose narrowed one succeeds |
| `Narrowing.NarrowingKeepsDecodable` | backend/ent/account.go:163-366 | rows that decode in full decode under every selection |
| `SnapshotAgreement.RoutesAgree` | backend/ent/account_query.go:542-694 | on a consistent snapshot the many-to-many edge and the route through join entities give every account the same groups, neither with repetitions |
| `SnapshotAgreement.SnapshotLoads` | backend/ent/account_query.go:542-694 | edge queries answered from one snapshot make the many-to-many loader and the join entity loader succeed |
| `SnapshotAgreement.QueryRoutesAgree` | backend/ent/account_query.go:480-540 | the same for one query that asks for both edges, answered from the snapshot, whatever fields are selected |
| `SnapshotAgreement.RunOnSnapshot` | backend/ent/account_query.go:480-540 | a whole run on a consistent snapshot succeeds, if its rows decode, nothing is intercepted and its other edges do not fail, and both routes give every account the same groups |
| `SnapshotAgreement.InverseEdges` | backend/ent/accountgroup_query.go:379-407 | a join entity is in an account's list if and only if its own account edge is an account with that id |
| `SnapshotAgreement.QueryInverseEdges` | backend/ent/accountgroup_query.go:379-407 | the same for one query that asks for join entities with their accounts, answered from the snapshot, whatever fields are selected |
| `Hooks.WithHooks` | backend/ent/ent.go:546-577 | a nil hook anywhere fails with the state untouched; otherwise the result is that of the chain with hook 0 outermost; without hooks that of the operation |
| `Hooks.EmptyChain` | backend/ent/ent.go:550-552 | the shortcut for no hooks equals the general path |
| `Hooks.ChainAppend` | backend/ent/ent.go:562-567 | the chain of two lists is the chain of the first around the chain of the second |
| `Hooks.ExecutesOnRewritten` | backend/ent/ent.go:553-561 | with rewriting hooks the operation runs on the mutation all of them produced, outermost first, and the builder holds it |
| `Hooks.RewrittenLast` | backend/ent/ent.go:562-567 | the last hook's rewriting is applied last, on what the ones before it produced |
| `Hooks.ForeignMutationRefused` | backend/ent/ent.go:553-557 | a mutation of another type reaches the operation through any rewriting hooks and is refused there; nothing is executed and nothing changes |
| `Hooks.ForeignValueRefused` | backend/ent/ent.go:568-576 | a value of another type is refused after the operation ran on the rewritten mutation; an error is handed on |
| `Hooks.RecordingsNest` | backend/ent/ent.go:562-568 | hooks are entered first to last and left last to first around the operation |
| `Hooks.EnteredAndLeft` | backend/ent/ent.go:562-568 | the k-th step before the operation enters hook k, and the k-th after it leaves the k-th from the end |
| `Hooks.WithInterceptors` | backend/ent/ent.go:612-625 | the same fold, but a nil interceptor panics |
| `Hooks.PrepareQuery` | backend/ent/account_query.go:454-478 | traverses in interceptor order, then validates the fields as the traversals left them, then follows the path, up to the first error |
| `Hooks.TraversedCourse` | backend/ent/account_query.go:455-464 | each traversal starts where the one before it ended; the first nil interceptor or error ends the preparation with the state it left, and the later ones do not run |
| `Hooks.All` | backend/ent/account_query.go:261-268 | a run is its preparation, and if that succeeds the interceptors around the querier; preparation catches a nil interceptor, so that running never panics |
| `AccountMutations.FillMeaning` | backend/ent/account_create.go:451-505 | filling defaults keeps what is set, sets nothing but fields that have a default, to that default, and either sets every such field or stops at an unset one whose default is not initialized |
| `AccountMutations.FillTwice` | backend/ent/account_create.go:451-505 | filling defaults a second time, as for a builder listed twice, changes nothing |
| `AccountMutations.DefaultValues` | backend/ent/account_create.go:451-505 | after the defaults every field that was set is unchanged, each of the ten that was not holds its own default once it is set, and no other field is added |
| `AccountMutations.DefaultsStop` | backend/ent/account_create.go:451-505 | filling succeeds exactly if none of the four default functions is needed and uninitialized; otherwise the first such field in filling order is named and only the fields before it are set |
| `AccountMutations.CheckMeaning` | backend/ent/account_create.go:508-574 | a mutation passes exactly if the thirteen required fields are set and the five validated ones, as far as they are set, are valid |
| `AccountMutations.CheckNamesFirst` | backend/ent/account_create.go:508-574 | the field that is named is missing or invalid, and no field that is checked before it is |
| `AccountMutations.DefaultsThenCheck` | backend/ent/account_create.go:451-574 | defaults overwrite nothing; if they fail, so does the check that follows; if they succeed, only a field of the caller can fail it |
| `BulkCreate.AccountCreateBulk.MutateCore` | backend/ent/account_create.go:1862-1895 | the core mutator changes the state as `Exec` says: check what the builder holds, take over what was passed on at all of the builder's positions, go on, and complete |
| `BulkCreate.AccountCreateBulk.Mutate` | backend/ent/account_create.go:1862-1899 | running a mutator under its hooks changes the state as `Exec` says |
| `BulkCreate.AccountCreateBulk.Wrap` | backend/ent/account_create.go:1896-1899 | wrapping, last hook first, makes hook 0 the outermost, and panics exactly on a nil hook |
| `BulkCreate.AccountCreateBulk.Prepare` | backend/ent/account_create.go:1853-1901 | fills in the defaults and puts one wrapped mutator per position in place; panics exactly on a nil hook, before anything runs |
| `BulkCreate.AccountCreateBulk.Save` | backend/ent/account_create.go:1849-1907 | returns the builder's own error untouched; panics on a nil hook before anything runs; otherwise runs the first mutator, with all mutators in place, on the defaulted state |
| `BulkTheorems.BatchesAreFull` | backend/ent/account_create.go:1870-1882 | whatever the hooks do, a batch is only issued with the specs of all builders |
| `BulkTheorems.AtMostOneBatch` | backend/ent/account_create.go:1874-1883 | if no hook retries, at most one batch is issued |
| `BulkCourse.IssuedBatch` | backend/ent/account_create.go:1862-1883 | for any hooks that call on at most once, exactly which batch a save issues, builders listed twice included: that of its course, with the fields the hooks passed on; it passes the check if and only if all of these do |
| `BulkCourse.ReachedIffEachSends` | backend/ent/account_create.go:1862-1883 | with every builder listed once, a batch is issued if and only if each builder alone gets through its hooks and its check, and it is made of what each alone sends |
| `BulkReports.SendsEdited` | backend/ent/account_create.go:1862-1900 | a builder whose hooks only edit sends its fields after all their edits, in hook order, if these pass the check |
| `BulkReports.SendsDecided` | backend/ent/account_create.go:1862-1900 | a hook decides on the fields after its own edit; if it replaces the mutation, the edited one is checked and the replacement is sent |
| `BulkReports.EveryRetryIssues` | backend/ent/account_create.go:1874-1883 | with a hook that retries and a database that refuses, every attempt issues a batch and the database's error is reported |
| `BulkCourse.ListedTwice` | backend/ent/account_create.go:1865-1872 | a builder listed twice under a replacing hook is checked on its replacement the second time |
| `BulkTheorems.BatchesPassChecks` | backend/ent/account_create.go:1867-1873 | with hooks that do not replace the mutation, every spec of every batch passes the check |
| `BulkTheorems.ReplacementIsNotChecked` | backend/ent/account_create.go:1867-1873 | an example of what is sent without a check: with a replacing hook a batch is issued exactly if the original passes, and its spec passes exactly if the replacement would |
| `BulkTheorems.FailingCheckBlocks` | backend/ent/account_create.go:1867-1882 | if a property that fails the check holds of one builder's fields and the hooks of the builders that hold its mutation keep it when they edit, no batch is ever issued, at any position, however any hook replaces, retries, refuses, answers or swallows errors |
| `BulkTheorems.MissingNameBlocks` | backend/ent/account_create.go:515-517 | in particular for a builder without a name whose hooks do not set one |
| `BulkOutcome.TransparentIsAllOrNothing` | backend/ent/account_create.go:1849-1906 | with hooks that report the outcome they get, a save issues one accepted full batch, every builder's mutation is done and every node has the fields of its spec in the batch and the id the database answered for its position, or it reports an error, nothing was accepted and nothing is done |
| `BulkOutcome.SaveAllOrNothing` | backend/ent/account_create.go:1848-1907 | the same for `Save` itself, from the builders as the caller filled them |
| `BulkReports.EveryMutationExposesItsNode` | backend/ent/account_create.go:1884-1889 | if every builder starts with its own mutation, then after success the one it holds, its own or the replacement its hooks passed on, exposes the node at the builder's position |
| `BulkReports.FirstFailureReported` | backend/ent/account_create.go:1867-1883 | under pass-through hooks the error is what the check says of the first position that fails it, all positions before having passed theirs and nothing being issued, or the database's |
| `BulkOutcome.AllOrNothingIff` | backend/ent/account_create.go:1849-1906 | for all hooks that call on at most once and hand errors on, exactly when a save is all-or-nothing, read off the hooks' decisions, the checks and the database's answer to the specs that are sent |
| `BulkOutcome.PropagatingIsNotEnough` | backend/ent/account_create.go:1849-1906 | a hook that answers by itself, and one that fails late, for which it is not |
| `BulkOutcome.StartsDefaulted` | backend/ent/account_create.go:1859-1860 | the mutation of every listed builder starts with its defaults, even if it is listed twice, and nothing else changes |
| `BulkOutcome.SaveIsNested` | backend/ent/account_create.go:1856-1904 | the steps of a successful save with pass-through hooks are properly nested around one batch: what comes after it is the mirror image of what came before |
| `BulkOutcome.DescentInOrder` | backend/ent/account_create.go:1856-1900 | the way down has every builder's hooks and check exactly once, builder by builder, hooks in order and then the check |
| `BulkOutcome.MirrorAt` | backend/ent/account_create.go:1884-1894 | the mirror image closes every step in exactly the opposite order |
| `BulkNesting.EveryRunIsNested` | backend/ent/account_create.go:1862-1899 | in every run, whatever the hooks do and however it ends, every hook that is entered is left, the last one entered first, and no other is left |
| `PyStrings.StripPadded` | tools/check_pnpm_audit_exceptions.py:12-20 | spaces around a trimmed text go away and nothing else does |
| `PyStrings.StripParts` | tools/check_pnpm_audit_exceptions.py:12-20 | stripping takes spaces from the two ends and nothing else |
| `PyStrings.DigitsRead` | tools/check_pnpm_audit_exceptions.py:112-123 | a number turned into text is made of digits without a leading zero that read back as the number |
| `ExceptionList.SplitQuoted` | tools/check_pnpm_audit_exceptions.py:12-20 | splitting gives key and value back for a value between quotes of either kind, whatever characters it contains |
| `ExceptionList.SplitPlain` | tools/check_pnpm_audit_exceptions.py:12-20 | splitting gives key and value back for a trimmed value that does not start and end with the same quote |
| `ExceptionList.SplitLoneQuote` | tools/check_pnpm_audit_exceptions.py:12-20 | a quote on its own is read as nothing |
| `ExceptionList.ClassifyMeaning` | tools/check_pnpm_audit_exceptions.py:28-45 | which stripped lines are items, malformed items, pairs and neither |
| `ExceptionList.LinesMeaning` | tools/check_pnpm_audit_exceptions.py:26-28 | a line ends at a line feed, a carriage return or the two together, and the last one need not end |
| `ExceptionList.ParseLine` | tools/check_pnpm_audit_exceptions.py:28-45 | one turn of the loop: an item closes the record being read and opens one, a pair extends it, other lines do nothing |
| `ExceptionList.ParseExceptions` | tools/check_pnpm_audit_exceptions.py:23-48 | the loop computes the block-wise reading of the lines, and raises exactly if an item line has no colon |
| `ExceptionList.OneRecordPerItem` | tools/check_pnpm_audit_exceptions.py:33-47 | there are as many records as item lines, and none is empty |
| `ExceptionList.ParseSplit` | tools/check_pnpm_audit_exceptions.py:23-48 | parsing is a homomorphism at item boundaries |
| `ExceptionList.IgnoredLinesAreFree` | tools/check_pnpm_audit_exceptions.py:29-32 | blank lines, comments, `version:` and `exceptions:` lines and bare dashes can be inserted anywhere |
| `ExceptionList.ParsePrinted` | tools/check_pnpm_audit_exceptions.py:23-48 | parsing returns printed records, each value written as it is, between single or between double quotes, for any quoted values and all keys that can be printed |
| `ExceptionList.ToRecordLast` | tools/check_pnpm_audit_exceptions.py:42-45 | of several pairs with one key the last one counts |
| `ExceptionList.ParsePrintedText` | tools/check_pnpm_audit_exceptions.py:27-48 | the same through the text of a file, for keys and values without line breaks |
| `AuditFindings.PickAdvisoryIDMeaning` | tools/check_pnpm_audit_exceptions.py:51-61 | an identifier is found exactly if some field can serve as one; the GitHub id has precedence |
| `AuditFindings.PickedInOrder` | tools/check_pnpm_audit_exceptions.py:51-61 | the identifier is the first field that serves, in the script's order, field by field |
| `AuditFindings.NamedCauseFound` | tools/check_pnpm_audit_exceptions.py:103-111 | a package name that is not empty, in the list or alone, yields a finding with that name as its advisory |
| `AuditFindings.ObjectCauseFound` | tools/check_pnpm_audit_exceptions.py:86-95 | an object yields a finding with the first of GitHub id, url, source, title and name that is neither missing nor empty nor zero |
| `AuditFindings.NoIdentifier` | tools/check_pnpm_audit_exceptions.py:86-95 | an object has no identifier exactly if all five are missing, empty or zero |
| `AuditFindings.FindingsRaise` | tools/check_pnpm_audit_exceptions.py:96-109 | producing the findings raises exactly if the title of some cause, the first of title, url, advisory and source that serves, is a number |
| `AuditFindings.CausesInOrder` | tools/check_pnpm_audit_exceptions.py:85-111 | the findings of a vulnerability come in the order of its causes, one for each that has an identifier |
| `AuditFindings.FindingsInOrder` | tools/check_pnpm_audit_exceptions.py:64-111 | the findings of the advisories come first, one each and in order |
| `AuditFindings.CollectVia` | tools/check_pnpm_audit_exceptions.py:86-107 | the identifier and the title of every cause |
| `AuditFindings.IterVulns` | tools/check_pnpm_audit_exceptions.py:64-111 | the findings of both layouts in order, or an exception if a title to be joined is a number |
| `AuditFindings.FindingsMeaning` | tools/check_pnpm_audit_exceptions.py:64-111 | exactly the advisories, and the causes of vulnerabilities that have an identifier, stated field by field |
| `GateCore.BuildIndex` | tools/check_pnpm_audit_exceptions.py:156-185 | the loop over the exceptions computes the fold that `IndexMeaning` characterises |
| `GateCore.IndexMeaning` | tools/check_pnpm_audit_exceptions.py:156-185 | nothing is reported exactly if all exceptions are complete, dated, keyed and distinct; then the index holds exactly them |
| `GateCore.ScanFindings` | tools/check_pnpm_audit_exceptions.py:192-219 | the deduplicating loop computes the fold that `ScanMeaning` characterises, and raises exactly on a severity that is a number |
| `GateCore.ScanMeaning` | tools/check_pnpm_audit_exceptions.py:192-219 | the keys seen are those that occur; nothing is recorded exactly if every relevant finding has an advisory and the first of each key a fitting entry |
| `GateCore.Assemble` | tools/check_pnpm_audit_exceptions.py:221-238 | the report in order, a header only for a list that is not empty; empty exactly if nothing was recorded |
| `GateCore.GateMeaning` | tools/check_pnpm_audit_exceptions.py:156-243 | nothing is reported if and only if the gate's promise holds |
| `GateCore.DecideNormalized` | tools/check_pnpm_audit_exceptions.py:156-243 | exit 0 if and only if nothing raises and the promise holds; otherwise the exact report |
| `GateReport.IndexReports` | tools/check_pnpm_audit_exceptions.py:156-185 | exactly the exceptions that are invalid or repeat the key of an earlier valid one are reported, in order, each with its first fault; the index has the keys of the valid ones |
| `GateReport.IndexHoldsFirst` | tools/check_pnpm_audit_exceptions.py:181-185 | the index holds the severity and expiry of the first valid exception of a key |
| `GateReport.MissingReported` | tools/check_pnpm_audit_exceptions.py:203-211 | the keys reported without an exception are those of exactly the first relevant findings of a key that have none, in order |
| `GateReport.ExpiredReported` | tools/check_pnpm_audit_exceptions.py:203-219 | the keys reported as expired are those of exactly the first relevant findings of a key whose exception expired before the day, in order |
| `GateReport.ObjectionsReported` | tools/check_pnpm_audit_exceptions.py:197-215 | exactly the relevant findings without an advisory, and the first ones of a key whose exception names another severity, are reported, in order |
| `GateReport.ReportInOrder` | tools/check_pnpm_audit_exceptions.py:156-238 | the whole report: exceptions, single findings, missing exceptions under a header, expired ones under a header |
| `AuditGate.Decide` | tools/check_pnpm_audit_exceptions.py:114-243 | the same on parsed exceptions and raw findings, after normalisation |
| `AuditGate.CompleteMeaning` | tools/check_pnpm_audit_exceptions.py:9-9 | an exception is complete exactly if it has a package, an advisory, a severity, a mitigation and an expiry that are not empty |
| `AuditGate.NormalizedMeaning` | tools/check_pnpm_audit_exceptions.py:114-139 | package names are stripped, advisories and severities stripped and lowered, and the expiry parsed |
| `AuditGate.ViewedMeaning` | tools/check_pnpm_audit_exceptions.py:192-203 | the gate looks at a finding exactly if it has a name and its stripped, lowered severity is high or critical; its key is the stripped name and the stripped, lowered advisory; a severity that is a number other than zero raises |
| `AuditGate.RunGate` | tools/check_pnpm_audit_exceptions.py:142-243 | the whole script: exit 0 if and only if the file parses, the report yields its findings, and the promise holds; raises if and only if an item has no colon, or a title to be joined or a severity is a number; the exact report otherwise |
| `GateTheorems.DedupKeepsExpiry` | tools/check_pnpm_audit_exceptions.py:206-219 | if the gate passes, every relevant finding, not only the first of its key, has an unexpired exception |
| `GateTheorems.DedupHarmlessIff` | tools/check_pnpm_audit_exceptions.py:206-219 | deduplication changes no verdict, whatever the exceptions and the day, if and only if relevant findings of one key agree on their severity or some finding cannot be excused at all |
| `GateTheorems.StrictIffEveryOrder` | tools/check_pnpm_audit_exceptions.py:206-219 | the gate without deduplication passes if and only if the gate passes for every order of the findings |
| `GateTheorems.OrderMatters` | tools/check_pnpm_audit_exceptions.py:206-219 | two findings of one key that pass in one order and fail in the other |
| `GateTheorems.ExceptionOrderIrrelevant` | tools/check_pnpm_audit_exceptions.py:156-185 | permuting the exceptions does not change the verdict |
| `GateTheorems.FindingOrderIrrelevant` | tools/check_pnpm_audit_exceptions.py:192-219 | where findings of one key agree on severity, neither order nor repetition matters |
| `GateTheorems.TwiceIsOnce` | tools/check_pnpm_audit_exceptions.py:192-219 | feeding the findings twice changes nothing |
| `GateTheorems.PassingDays` | tools/check_pnpm_audit_exceptions.py:187-219 | the gate passes on a day if and only if it passes with expiry ignored and no used exception expires before that day |
| `GateTheorems.PassingDaysAreDownwardClosed` | tools/check_pnpm_audit_exceptions.py:187-219 | the passing days are exactly those up to the minimum expiry over the used exceptions |
| `ScriptTheorems.FileOrderIrrelevant` | tools/check_pnpm_audit_exceptions.py:156-243 | permuting the records of the file does not change the script's verdict |
| `ScriptTheorems.ReportOrderIrrelevant` | tools/check_pnpm_audit_exceptions.py:192-243 | where the report's findings of one key agree on severity, neither their order nor their repetition matters to the script |
| `ScriptTheorems.ReportTwiceIsOnce` | tools/check_pnpm_audit_exceptions.py:192-243 | a report that lists its findings twice gets the same verdict |
| `ScriptTheorems.EveryFindingIsCovered` | tools/check_pnpm_audit_exceptions.py:156-243 | if the script approves, every named high or critical finding has a record in the file that has not expired |
| `ScriptTheorems.ReportDedupHarmlessIff` | tools/check_pnpm_audit_exceptions.py:156-243 | for which reports, with a given date parser, the script's verdict is that of looking at every finding, whatever the file and the day: exactly if findings of one key agree on severity, or the report cannot be approved at all, or the parser accepts no date |
| `ScriptTheorems.ApprovedDays` | tools/check_pnpm_audit_exceptions.py:142-243 | the days on which the script approves are those up to the minimum expiry over the records it uses, if it approves with expiry ignored |
| `WholeScript.ItemOrderIrrelevant` | tools/check_pnpm_audit_exceptions.py:23-243 | permuting the items of the exception file, line blocks that start with a dash, does not change whether the script approves |
| `WholeScript.EntryOrderIrrelevant` | tools/check_pnpm_audit_exceptions.py:64-243 | neither the order nor the repetition of the report's advisories and vulnerabilities matters, where findings of one key agree on severity |
| `WholeScript.ApprovalCovers` | tools/check_pnpm_audit_exceptions.py:64-243 | if the script approves, every named high or critical advisory or cause of the report has an unexpired record in the file |
| `WholeScript.ApprovedEarlier` | tools/check_pnpm_audit_exceptions.py:142-243 | a script that approves on some day would have approved on every earlier one |

## Left out

- SQL generation and the sqlgraph library: a query is its answer, and the answer does not depend on the column list;
  transactions, locks, upserts, group-by and ordering clauses live there.
- The Group, Proxy and UsageLog query files and mutation.go, beyond the scanning of ids and keys.
- Nested eager loading inside group and proxy queries; interceptors that run the many-to-many query more than once.
- `UsageLogQueries.UsageLogQuery.All`: traversals, paths and interceptors of the log query are part of its answer, and so
  they are for `AccountGroupQueries.AccountGroupQuery.All` and the proxy query; `Hooks` models them on their own.
- The remaining entities (API keys, announcements and so on): they repeat the same templates.
- `Entities.Account.AssignValues`: does not model what JSON decodes to; whether a payload decodes is a parameter, and
  every payload other than an integer is an opaque code.
- A loader that fails or panics leaves its nodes half-filled; the query then drops them, and their edges are not
  described.
- nil and empty slices of neighbours are not told apart.
- The key columns of groups, proxies, logs and join entities are constants of their objects: no code changes them
  after scanning.
- `BulkCreate.Exec`: hooks are data with pure functions inside, and mutations are entries of a store rather than heap
  objects, because methods that change the heap cannot be stored in an array; hooks that keep state of their own, pass
  on another builder's mutation, or call on again after success, are not covered.
- Edge specs of a create (groups, proxy, logs) and conflict options: they add payload to a spec, not behaviour to a save.
- Contexts and the dynamic types of mutations in a bulk save; `Hooks` covers both type assertions of a single save.
- Argument parsing, reading files, JSON decoding and the wording of messages; dates are integers and the date parser is
  a parameter.
- Lower-casing covers ASCII letters only; report fields that are neither missing, strings nor numbers are not covered.
