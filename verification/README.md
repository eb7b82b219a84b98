# Verified models of eager loading, bulk creation, the audit gate and the archive assembler

Four parts of the repository carry algorithms over unbounded inputs. This Dafny project models them and proves what
they promise, for all inputs and all runs.

* **Batched eager loading** (`Ent*`, `Eager*`). `sqlAll` reads accounts with one query and then loads each requested
  edge for all of them with one more, scattering the neighbours with hash maps; it recurses through parents, children
  and account groups. `EagerLoad.AllAccounts` is the imperative loader over node objects and a driver that counts its
  queries and may fail any of them. It is proved to build exactly the trees of `EagerSpec.BatchAccounts`, and those are
  proved to be what looking up every edge of every account on its own would give, at every depth. The database is
  arbitrary, as are the scan order of every table and of the join. Assumed of it: primary keys are unique and a join
  returns the pairs that match, each at least once.
* **Bulk creation** (`Bulk*`). Every builder's hook stack wraps the next builder and only the last one inserts. Hooks
  are described by what they do: refuse, skip the rest, or edit the mutation, call the rest and then return, fail,
  swallow the error or try again; an edit sets fields and clears others. `AccountCreateBulk.Save` is proved to be the run of that machine, and the runs of
  every plan of hooks are characterised by what can be read off the plan before the run: how often the batch is
  inserted and with which specs, whether it succeeds and which error comes back otherwise, who is marked done, and which
  nodes get which IDs.
* **The audit-exception gate** (`Strings`, `JsonValues`, `Audit*`). The line parser, the index and the gate are
  imperative; the parser returns what was rendered, bare or in either kind of quotes, and the exit code has a meaning
  in terms of the entries and findings alone, without index, state or order.
* **The archive assembler** (`StringOrder`, `Archive*`). Lines are folded into groups by id, then sorted. Loading is a
  homomorphism into an associative merge, nothing is lost, and the effect of the order of lines is described exactly.

Where the code does not do what one would expect, the code is kept and the exact condition is proved:

* An offset or a limit on a nested query acts on the whole batch. Each account gets the rows it would get alone if and
  only if the window is `Harmless`: it skips everything, or cuts nothing, or what it skips and takes belongs to one
  owner and no other owner has more rows than are skipped (`UsageLogsLimitIff`, `ChildrenLimitIff`,
  `AccountGroupsLimitIff`, `ProxyLimitIff`, `ParentLimitIff`, `OwnerLimitIff`, `GroupLimitIff`; an example is
  `NestedLimitStarves`). For the many-to-many edge the same holds of the joined rows when no group is joined to an
  account twice (`GroupsLimitIff`); where the join repeats rows a limit can cut one without harm
  (`RepeatedRowCutHarmlessly`).
* Groups of an account come in the order in which the whole batch first mentions them. That is the order the account
  would have alone if and only if the batch's joined rows and its own mention its groups first in the same order
  (`GroupOrderIff`; `GroupOrderDiffers` is a database where they do not), so agreement is on the groups and how often
  each occurs.
* Done mutations form a suffix of the builders, whatever the database answers, if and only if no builder but the first
  may hide that it was not created, by a hook that short-circuits or recovers (`AlwaysSuffixIff`, examples
  `ShortCircuitBreaksSuffix` and `RecoverBreaksSuffix`). Success means that all are done and stored, whatever the
  database answers, if and only if the outermost hook that decides does not report success on its own
  (`AlwaysHonestIff`). There is never more than one insert if and only if some builder is not let through, or every
  hook that would try again is told of success by a hook further in (`AlwaysInsertsOnceIff`, example
  `RetryInsertsTwice`). These conditions read hooks and validation only; `SaveMarksSuffix`, `SaveIsHonestIff` and
  `SaveInsertsOnceIff` say the same of one database whose answers are known.
* The program that reads the audit report raises, and exits with 1, on a vulnerability whose titles do not join: an
  advisory without title, URL or advisory text whose source is a number is enough, also when nothing is severe
  (`NumericSourceFails`). `GateExact` has this among the conditions of exit code 0.
* The order of audit findings can change the exit code when a key carries two severities (`FindingOrderMatters`;
  `EveryOrderPassesIff` and `SomeOrderPassesIff` say when). A high or critical entry of the `vulnerabilities` section
  whose `via` names no advisory is no error; it is not noticed at all (`NoticedIff`). A finding whose
  name is only white space can be excused by no exception (`ExcusableIff`).
* The order of archive lines can change which event is kept when timestamps tie (`TieBrokenByOrder`). It never changes
  what is kept, or the output apart from the lists of source files, if and only if the latest events of an id and type
  are all the same event (`ChoiceStableIff`, `OutputStableIff`).

## Model

| member | source | states |
|---|---|---|
| EagerTheorems.BatchedIsPerEntity | backend/ent/account_query.go:550-625 | Main theorem: for every database and every tree of nested queries without nested limits, the batched result equals per-entity lookup at every depth |
| EagerTheorems.BatchedGroupsArePerEntity | backend/ent/accountgroup_query.go:334-377 | The same for account-group rows, the other half of the mutual recursion |
| EagerTheorems.SeparableIsPerEntity | backend/ent/account_query.go:550-625 | The same with offsets and limits anywhere below the root, where each takes from its batch what it takes from each key alone |
| EagerHarmless.HarmlessIsPerEntity | backend/ent/account_query.go:550-625 | In particular where the window of every nested query is harmless on the batch that it is run on |
| EagerTheorems.AccountAgrees | backend/ent/account_query.go:578-624 | All six edges of one account agree with that account loaded alone |
| EagerTheorems.GroupsAgree | backend/ent/account_query.go:627-687 | Many-to-many: whatever the join order and however often join rows repeat, an account gets exactly its linked groups, each once |
| EagerTheorems.LatestLeaf | backend/ent/account_query.go:688-719 | Many-to-one: the neighbour scattered to a key is the one a lookup of that key alone ends on, also when neighbour IDs repeat |
| EagerTheorems.OwnedLeaves | backend/ent/account_query.go:785-814 | One-to-many: the batch rows with an owner's key are the rows of that owner's own query, in the same order |
| EagerTheorems.ParentAgrees | backend/ent/account_query.go:720-751 | The parent edge agrees with a lookup of the foreign key, through the recursion |
| EagerTheorems.ChildrenAgree | backend/ent/account_query.go:752-784 | The children of an account agree with its own children query, in order, through the recursion |
| EagerTheorems.AccountGroupsAgree | backend/ent/account_query.go:815-844 | The account-group rows of an account agree with its own query, through the mutual recursion |
| EagerTheorems.OwnerAgrees | backend/ent/accountgroup_query.go:379-407 | The account of an account-group row agrees with a lookup of its key |
| EagerLoad.AllAccounts | backend/ent/account_query.go:307-314 | The fresh node objects stand for the batched trees, loaded flags included (`EagerReads` says what they read as); at most one query per node of the query tree, however many rows; an error is always a failed query or an invalid field, so unexpected-key and nil-foreign-key errors cannot occur |
| EagerLoad.AllAccountGroups | backend/ent/accountgroup_query.go:334-377 | The same for account-group queries |
| EagerLoad.LoadEdges | backend/ent/account_query.go:578-624 | Loading the six edges in any order gives the same accounts, for fewer queries than the tree has nodes |
| EagerLoad.LoadEdge | backend/ent/account_query.go:578-624 | One load changes its own edge and no other, and depends on the scanned rows only |
| EagerLoad.LoadParent | backend/ent/account_query.go:720-751 | Every account points at the object loaded for its foreign key, or at nothing |
| EagerLoad.LoadChildren | backend/ent/account_query.go:752-784 | Every account holds the objects loaded for its ID, in result order; the nil-foreign-key error does not occur |
| EagerLoad.LoadAccountGroups | backend/ent/account_query.go:815-844 | The same for account-group rows |
| EagerLoad.LoadAccount | backend/ent/accountgroup_query.go:379-407 | Every account-group row points at the object loaded for its account ID |
| EagerLoad.First | backend/ent/account_query.go:208-217 | The first account, fully loaded; not-found exactly when nothing matches |
| EagerLoad.Only | backend/ent/account_query.go:254-268 | The one account, fully loaded; not-found and not-singular exactly when no row and more than one row match |
| EagerEdges.LoadGroups | backend/ent/account_query.go:627-687 | The rewritten scanner and the `nids` maps, iterated in any order, put each linked group on each account once |
| EagerEdges.ScanJoined | backend/ent/account_query.go:651-674 | Stripping the account-ID column keeps columns and values aligned; each group is kept at its first row only and its accounts are collected from all rows |
| EagerEdges.AssignToAll | backend/ent/account_query.go:681-685 | Assigning over the account set in any order appends the group to exactly those accounts |
| EagerEdges.IndexByKey | backend/ent/account_query.go:688-703 | `ids` has no duplicates and is exactly the set of non-nil keys; each key lists its nodes in order |
| EagerEdges.LoadProxy | backend/ent/account_query.go:688-719 | Every account with a proxy key gets that proxy or none, accounts without one are untouched |
| EagerEdges.LoadUsageLogs | backend/ent/account_query.go:785-814 | Every account gets its usage logs in result order |
| EagerEdges.LoadGroup | backend/ent/accountgroup_query.go:408-436 | Every account-group row gets its group or none |
| EntNodes.Account.AssignValues | backend/ent/account.go:193-417 | Cell by cell, the object ends up with exactly the selected columns; a column that is missing or NULL leaves the key nil or zero; too few values is an error |
| EntNodes.AccountGroup.AssignValues | backend/ent/accountgroup_query.go:345-350 | The same for account-group rows, whose keys are not nullable |
| EntNodes.PrepareQuery | backend/ent/account_query.go:535-539 | Rejects exactly the queries that select a name that is no column, and names the first such |
| EagerProjections.ProjectionIndependent | backend/ent/account_query.go:866-880 | Selecting other fields at any levels of a query gives the same accounts with the same edges in the same order at every depth, and the same values in the columns that both carry |
| EagerProjections.GroupProjectionIndependent | backend/ent/accountgroup_query.go:456-467 | The same for account-group queries |
| EagerProperties.ProjectionIndependent | backend/ent/account_query.go:866-880 | Selecting other fields at the root changes the node's own values and none of its edges at all |
| EagerPartitions.OwnersPartition | backend/ent/account_query.go:752-844 | One-to-many scattering with distinct owners: the shares together are a permutation of all items, none lost, none dealt twice |
| EagerPartitions.ChildrenPartition | backend/ent/account_query.go:752-784 | The children of all accounts together are a permutation of the accounts found |
| EagerPartitions.UsageLogsPartition | backend/ent/account_query.go:785-814 | The same for usage logs |
| EagerPartitions.AccountGroupsPartition | backend/ent/account_query.go:815-844 | The same for account-group rows |
| EagerProperties.GroupsInFirstSeenOrder | backend/ent/account_query.go:656-685 | An account's groups are distinct and in the order of first appearance in the whole batch |
| EagerJoins.GroupOrderIff | backend/ent/account_query.go:656-685 | In the batch an account has its groups in the order it has alone, if and only if the batch's joined rows and its own mention them first in the same order |
| EagerJoins.GroupOrderDiffers | backend/ent/account_query.go:656-685 | A database of two accounts and three joined rows where the two orders differ |
| EagerProperties.ProxyOrErrMeaning | backend/ent/account.go:120-129 | Not-loaded iff not requested, not-found iff no row matches, otherwise a row that matches |
| EagerProperties.ParentOrErrMeaning | backend/ent/account.go:131-140 | The same for the parent, which agrees with that parent looked up alone |
| EagerReads.GroupsOrErrMeaning | backend/ent/account.go:111-118 | Not-loaded iff not requested, otherwise the account's own groups; never not-found |
| EagerReads.ChildrenOrErrMeaning | backend/ent/account.go:142-149 | The same for children: the rows whose parent is the account and that the caller's predicates admit, in table order, each as it is found alone |
| EagerReads.UsageLogsOrErrMeaning | backend/ent/account.go:151-158 | The same for usage logs, with their columns |
| EagerReads.AccountGroupsOrErrMeaning | backend/ent/account.go:160-167 | The same for account-group rows |
| EagerReads.AccountOrErrMeaning | backend/ent/accountgroup.go:45-54 | The account of an account-group row: not-loaded iff not requested, not-found iff no admitted account has its ID, otherwise that account as it is found alone |
| EagerReads.GroupOrErrMeaning | backend/ent/accountgroup.go:56-65 | The same for the group of an account-group row |
| EagerReads.BatchReads | backend/ent/account_query.go:554-576 | Without any assumption and at every depth of every loaded account, each of the eight edges reads as not loaded iff its own sub-query is missing |
| EagerReads.GroupsLookUp | backend/ent/account_query.go:627-687 | The groups of an account looked up alone: those joined to it by a row of account_groups and admitted by the caller's predicates, each once |
| EagerRows.AccountValues | backend/ent/account_query.go:866-880 | A loaded account carries the whole table, or the ID, the selection and the keys of its requested edges, and nothing else, with the cells of its row |
| EagerRows.AccountGroupValues | backend/ent/accountgroup_query.go:456-467 | The same for account-group rows, which have no ID |
| EagerRows.ColumnsOnce | backend/ent/account_query.go:866-880 | A selection without repetitions is read without repetitions, the ID first, the added keys included |
| EagerRows.ScanJoinInOrder | backend/ent/account_query.go:638-646 | Joined rows come in join order: those of the asked accounts whose group the predicates admit |
| EagerRows.SizeMeaning | backend/ent/account_query.go:578-624 | The bound on the number of queries is the number of nodes in the query tree |
| EagerLimits.SlicesIff | backend/ent/account_query.go:888-893 | An offset and a limit take the same slice of every owner's rows out of a batch as out of that owner's rows alone, if and only if the window is harmless |
| EagerLimits.NestedLimitIff | backend/ent/account_query.go:888-893 | The same for the rows that a nested query finds in one table |
| EagerLimits.UsageLogsLimitIff | backend/ent/account_query.go:785-814 | With an offset and a limit on usage logs, every account gets what it gets alone, if and only if the window on the batch is harmless |
| EagerLimits.ChildrenLimitIff | backend/ent/account_query.go:752-784 | The same for the rows behind children, whatever their own edges |
| EagerLimits.AccountGroupsLimitIff | backend/ent/account_query.go:815-844 | The same for account-group rows; that only harmless windows do is said behind an offset as far as the selected columns tell rows apart |
| EagerLimits.ProxyLimitIff | backend/ent/account_query.go:688-719 | The same for the proxy that an account points at |
| EagerLimits.ParentLimitIff | backend/ent/account_query.go:720-751 | The same for the row behind the parent |
| EagerLimits.OwnerLimitIff | backend/ent/accountgroup_query.go:379-407 | The same for the account of an account-group row |
| EagerLimits.GroupLimitIff | backend/ent/accountgroup_query.go:408-436 | The same for the group of an account-group row |
| EagerLimits.NestedLimitStarves | backend/ent/account_query.go:785-814 | Two accounts, one usage log each, a limit of one: the second account gets nothing in the batch and its log alone |
| EagerJoins.GroupsLimitIff | backend/ent/account_query.go:627-687 | With an offset and a limit on the joined query, every account gets the groups it gets alone, if and only if the window on the joined rows is harmless, for joins without repeated pairs |
| EagerJoins.RepeatedRowCutHarmlessly | backend/ent/account_query.go:627-687 | With a repeated joined row, a limit that is not harmless in that sense leaves every account its groups |
| BulkCreate.Mutate | backend/ent/account_create.go:2107-2149 | The chain, mutator by mutator; it ends, on builders and hooks left, and keeps one spec, node and mutation per builder; `SaveErrorIff` says which error it passes on |
| BulkCreate.AccountCreateBulk.Save | backend/ent/account_create.go:2095-2152 | Fills every builder's defaults, runs the chain from the first mutator, returns the nodes or the chain's error |
| BulkCreate.AccountCreateBulk.Create | backend/ent/account_create.go:2107-2145 | One builder's closure is the innermost step of the chain: check, spec, the rest, then ID and done |
| BulkCreate.AccountCreateBulk.Hooked | backend/ent/account_create.go:2146-2149 | Hooks wrap the closure outermost first |
| BulkErrors.CheckAfterDefaults | backend/ent/account_create.go:527-662 | After defaults, whose error is ignored, the check passes exactly when name, platform and type are given, every default that is needed is initialized, and none of the six validated values is refused |
| BulkErrors.DefaultsMeaning | backend/ent/account_create.go:527-585 | Defaults fill, in their order, what is unset, up to the first of the four computed ones that is not initialized, and change nothing else |
| BulkErrors.CheckMeaning | backend/ent/account_create.go:588-662 | The check passes exactly when no field offends, and otherwise names the first that does, in the order of the source |
| BulkRuns.EarlierUntouched | backend/ent/account_create.go:2107-2145 | A mutator leaves the builders before it alone and never undoes an insert or a trace entry |
| BulkRuns.StaysReady | backend/ent/account_create.go:2107-2149 | However often a hook calls the rest of the chain, every check sees the same fields |
| BulkRuns.Writes | backend/ent/account_create.go:2116-2128 | From any point of the chain and for every plan: which specs are set, and that every batch is inserted exactly when all builders get through |
| BulkRuns.Fares | backend/ent/account_create.go:2116-2138 | From any point and for every plan: bounds on the inserts, whether it reports success, and exactly who is marked done |
| BulkRuns.Builds | backend/ent/account_create.go:2118-2136 | From any point and for every plan: which nodes exist, with which fields, and which carry an ID |
| BulkRuns.Numbers | backend/ent/account_create.go:2120-2136 | From any point and for every plan: the IDs are those of the last insert, if it is stored, and none that no insert gave |
| BulkRuns.TraceBalanced | backend/ent/account_create.go:2102-2150 | In every run, retries included, hooks report on the way out in the reverse of the order in which they were entered |
| BulkSaves.InsertsAreComplete | backend/ent/account_create.go:2107-2128 | Every plan: something is inserted exactly when all builders get through, and every batch holds every builder's checked spec in builder order |
| BulkSaves.AlwaysInsertsOnceIff | backend/ent/account_create.go:2116-2128 | Never more than one insert whatever the database answers, if and only if some builder is not let through or every retrying hook is told of success by a hook further in |
| BulkSaves.SaveInsertsOnceIff | backend/ent/account_create.go:2116-2128 | For one database: at most one insert, if and only if some builder is not let through or no retrying hook is told of a failure by the first insert |
| BulkSaves.SaveInsertsOnce | backend/ent/account_create.go:2116-2128 | In particular when hooks call next at most once |
| BulkSaves.SaveStoresIff | backend/ent/account_create.go:2120-2128 | Every plan: an insert is stored, if and only if all builders get through and one of the attempts that the retrying hooks afford is stored |
| BulkSaves.SaveMarks | backend/ent/account_create.go:2129-2138 | Every plan: success and every done mark, read off the plan |
| BulkSaves.AlwaysSuffixIff | backend/ent/account_create.go:2107-2149 | The done mutations are a suffix whatever the database answers, if and only if no builder but the first may hide that it was not created, read off hooks and validation |
| BulkSaves.SaveMarksSuffix | backend/ent/account_create.go:2129-2138 | For one database: a suffix, if and only if no builder but the first does hide it |
| BulkSaves.AlwaysHonestIff | backend/ent/account_create.go:2095-2152 | Success implies that all are done and an insert is stored whatever the database answers, if and only if the outermost deciding hook does not report success on its own |
| BulkSaves.SaveIsHonestIff | backend/ent/account_create.go:2095-2152 | For one database: the same, if and only if the save fails or no builder hides |
| BulkSaves.HidesHasCause | backend/ent/account_create.go:2146-2149 | A builder that hides has a hook that short-circuits or recovers |
| BulkSaves.SaveSucceedsIff | backend/ent/account_create.go:2095-2152 | Every plan: success with all done, if and only if all builders get through, an insert is stored, and in no builder the outermost hook that fails or recovers is one that fails |
| BulkErrors.SaveErrorIff | backend/ent/account_create.go:2095-2152 | Every plan and every error: it comes back, if and only if the chain gets to where it arises and no hook passed on the way there recovers |
| BulkErrors.SaveInsertFailedIff | backend/ent/account_create.go:2120-2128 | The insert's own error comes back, if and only if all builders get through, the last insert is rejected, and no hook recovers |
| BulkErrors.SaveInvalidIff | backend/ent/account_create.go:2112-2114 | A validation error on a field comes back, if and only if that builder's check is the first to stop the chain, the field is the first that offends, and no hook outside recovers |
| BulkErrors.SaveVetoedIff | backend/ent/account_create.go:2146-2149 | A veto comes back, if and only if that hook is the one that stops the chain, and no hook outside recovers |
| BulkErrors.SaveFailedAfterIff | backend/ent/account_create.go:2146-2149 | A hook's own failure comes back, if and only if the chain passes the hook, reports success to it, and no hook outside recovers |
| BulkErrors.SaveBinds | backend/ent/account_create.go:2132-2138 | In every run, mutations are bound to their nodes exactly when they are marked done |
| BulkSaves.SaveAssignsIds | backend/ent/account_create.go:2132-2136 | After full success with one insert, every node has its builder's fields and the ID given to its position |
| BulkSaves.TraceBracketed | backend/ent/account_create.go:2102-2150 | For hooks that call next at most once: the trace is the hooks passed, the insert if it is reached, and the hooks in reverse |
| BulkSaves.SaveTrace | backend/ent/account_create.go:2102-2150 | For such hooks, when all builders get through: all pre-hooks in builder then registration order, one insert, all post-hooks reversed |
| BulkSaves.ShortCircuitBreaksSuffix | backend/ent/account_create.go:2118-2138 | Two builders, the second short-circuited: success, the first done, the second not, nothing inserted |
| BulkSaves.RecoverBreaksSuffix | backend/ent/account_create.go:2118-2138 | Two builders, the second recovering from a rejected insert: success, the first done, the second not, nothing stored |
| BulkSaves.RetryInsertsTwice | backend/ent/account_create.go:2120-2128 | A hook that calls next again sends a rejected batch again |
| Strings.StripPadded | tools/check_pnpm_audit_exceptions.py:29-30 | White space around a text does not change what is left after stripping |
| Strings.NormalizedEqually | tools/check_pnpm_audit_exceptions.py:114-131 | Texts that differ in letter case and surrounding white space normalize to the same text |
| Strings.LowerMeaning | tools/check_pnpm_audit_exceptions.py:114-131 | Normalizing turns the capitals into small letters, one by one, and nothing else |
| Strings.DecimalMeaning | tools/assemble_request_archive.py:34-35 | An integer is shown by the digits that stand for it, without leading zeros, after a minus sign if it is negative |
| AuditParser.ParseExceptions | tools/check_pnpm_audit_exceptions.py:23-48 | The loop computes the line-by-line specification; it fails exactly when some line opens an entry with a field that has no colon |
| AuditParser.ParseFailsIff | tools/check_pnpm_audit_exceptions.py:28-45 | The same from any state of the reader |
| AuditParser.ParseAppend | tools/check_pnpm_audit_exceptions.py:28-48 | Parsing is compositional: the lines so far are summed up by the finished entries and the open one |
| AuditParser.SplitMeaning | tools/check_pnpm_audit_exceptions.py:12-20 | A line splits at its first colon, white space around key and value is dropped, a value loses matching quotes around it, and any other value is kept |
| AuditParser.ParsePadded | tools/check_pnpm_audit_exceptions.py:28-29 | White space around lines does not matter |
| AuditParser.ParseSkips | tools/check_pnpm_audit_exceptions.py:30-33 | Blank lines, comments and the two section heads can stand anywhere without effect |
| AuditParser.ParseIgnores | tools/check_pnpm_audit_exceptions.py:34-45 | Before the first dash nothing is read, and a line without a colon is not |
| AuditParser.ParseRoundTrip | tools/check_pnpm_audit_exceptions.py:12-48 | Rendering non-empty entries, each pair bare or in single or double quotes, and parsing returns them: every quoted value, quotes and colons included, and every bare value that has no white space or matching quotes around it |
| AuditGate.IterVulnerabilities | tools/check_pnpm_audit_exceptions.py:64-111 | The findings of both report shapes, in order; it raises exactly when the titles of some vulnerability do not join |
| AuditGate.IndexExceptions | tools/check_pnpm_audit_exceptions.py:153-185 | The loop computes the index and the errors of the exceptions, judged as `JudgeMeaning` says |
| AuditGate.IndexClean | tools/check_pnpm_audit_exceptions.py:153-185 | No error, if and only if every exception is good and the keys are pairwise different; the index holds exactly the keys of good exceptions |
| AuditGate.IndexFirst | tools/check_pnpm_audit_exceptions.py:175-185 | For a repeated key the first good exception is the one indexed |
| AuditExact.JudgeMeaning | tools/check_pnpm_audit_exceptions.py:156-175 | An exception is good, if and only if its five fields are there and not empty, its date reads, and package and advisory are not blank; then its key, severity and last day are those, normalized; otherwise which error it gives |
| AuditExact.ReadMeaning | tools/check_pnpm_audit_exceptions.py:193-203 | A finding is looked at, if and only if its severity reads high or critical and it has a name; its key is its name, letter case kept, and its advisory, letter case dropped |
| AuditGate.WalkFindings | tools/check_pnpm_audit_exceptions.py:187-219 | The loop computes the state of the gate after all findings; it raises exactly when some severity is neither text nor false |
| AuditGate.SeenIsKeyAmong | tools/check_pnpm_audit_exceptions.py:192-206 | `seen` is exactly the set of keys among the findings visited |
| AuditGate.VisitClean | tools/check_pnpm_audit_exceptions.py:193-219 | Nothing to object, if and only if every finding is identified and the first of each key is accepted by the index |
| AuditGate.RunGate | tools/check_pnpm_audit_exceptions.py:142-243 | The program's exit code is that of its parsed exceptions and its findings; whatever raises exits with 1 |
| AuditTheorems.NoticedIff | tools/check_pnpm_audit_exceptions.py:80-111 | A vulnerability raises when its titles do not join, and else gets the gate's attention exactly when it is high or critical, named, and names an advisory |
| AuditTheorems.AdvisoryReadIff | tools/check_pnpm_audit_exceptions.py:51-78 | An advisory is identified by the first of seven places that has a value, or the last; it is an error exactly when it is high or critical, named, and that value is blank |
| AuditTheorems.ViaMeaning | tools/check_pnpm_audit_exceptions.py:88-104 | A `via` object names its advisory by the first of five places that has a value, and adds the first of four to the title; a text does both |
| AuditTheorems.FindingsInOrder | tools/check_pnpm_audit_exceptions.py:64-111 | Findings come in report order, advisories before vulnerabilities, section by section and entry by entry |
| AuditTheorems.FindingsOfItems | tools/check_pnpm_audit_exceptions.py:80-111 | A vulnerability gives one finding for each `via` item that names an advisory, in their order |
| AuditTheorems.ExcusableIff | tools/check_pnpm_audit_exceptions.py:156-219 | Some exception excuses a finding, if and only if the finding's name is not blank |
| AuditTheorems.ExitExact | tools/check_pnpm_audit_exceptions.py:156-219 | Once everything is judged and read: nothing to object to, if and only if all exceptions are good with distinct keys, every finding looked at has an unexpired exception, and the first finding per key has a severity that fits |
| AuditExact.EntriesExact | tools/check_pnpm_audit_exceptions.py:156-219 | The same said of the entries and the findings themselves |
| AuditExact.GateExact | tools/check_pnpm_audit_exceptions.py:64-243 | The program exits with 0, if and only if no line is malformed, all titles join, every severity read is text or false, every exception has its five fields, a date, a package and an advisory, no two have one key, every high or critical named finding has an advisory and an unexpired exception, and the exception of the first finding of a key has its severity or a blank one |
| AuditTheorems.NumericSourceFails | tools/check_pnpm_audit_exceptions.py:96-109 | One low vulnerability that names its advisory by a number: nothing to object to, and exit code 1 |
| AuditTheorems.EarlierPasses | tools/check_pnpm_audit_exceptions.py:187-219 | What passes today passes on every earlier date |
| AuditTheorems.ExceptionOrderIrrelevant | tools/check_pnpm_audit_exceptions.py:156-185 | Permuting the exceptions keeps the exit code |
| AuditTheorems.FindingOrderIrrelevant | tools/check_pnpm_audit_exceptions.py:191-219 | Permuting the findings keeps the exit code when no key carries two severities |
| AuditTheorems.EveryOrderPassesIff | tools/check_pnpm_audit_exceptions.py:191-219 | Every order of the findings passes, if and only if all are excused and every severity fits |
| AuditTheorems.SomeOrderPassesIff | tools/check_pnpm_audit_exceptions.py:191-219 | Some order passes, if and only if all are excused and every key has a severity that fits |
| AuditTheorems.FindingOrderMatters | tools/check_pnpm_audit_exceptions.py:204-215 | One key with two severities: one order exits with 0, the other with 1 |
| AuditTheorems.FindingSpelling | tools/check_pnpm_audit_exceptions.py:114-131 | Case and white space of a finding's severity and advisory do not matter |
| AuditTheorems.ExceptionSpelling | tools/check_pnpm_audit_exceptions.py:156-175 | Nor do those of an exception, as long as an empty severity stays empty |
| AuditTheorems.SpellingIrrelevant | tools/check_pnpm_audit_exceptions.py:156-243 | Exceptions judged alike give the same exit code |
| StringOrder.LexTotal | tools/assemble_request_archive.py:61-64 | String comparison is total |
| StringOrder.LexAntisymmetric | tools/assemble_request_archive.py:61-64 | String comparison is antisymmetric |
| StringOrder.LexTransitive | tools/assemble_request_archive.py:61-64 | String comparison is transitive |
| StringOrder.LexMeaning | tools/assemble_request_archive.py:61-64 | It is equality, or a proper prefix, or the smaller character at the first difference |
| ArchiveEvents.LoadEvents | tools/assemble_request_archive.py:17-66 | The loops over files and lines compute the fold over all lines, read as `LineMeaning` says |
| ArchiveEvents.LineMeaning | tools/assemble_request_archive.py:24-39 | A line is a request or a response by the text of its type and a non-blank id; it is warned about if it is no JSON object, or has no id or another type; it is skipped if it is blank |
| ArchiveEvents.GroupEvent | tools/assemble_request_archive.py:41-64 | One event is put into its group, made if new: events, source files and the chosen event |
| ArchiveEvents.LoadAppend | tools/assemble_request_archive.py:17-66 | Loading is a homomorphism: loading A then B is loading each and merging |
| ArchiveEvents.LoadFilesAppend | tools/assemble_request_archive.py:21-66 | The same for lists of files |
| ArchiveEvents.MergeAssociative | tools/assemble_request_archive.py:41-64 | The merge is associative on all archives |
| ArchiveEvents.LaterAssociative | tools/assemble_request_archive.py:56-64 | Latest-timestamp choice, the second on ties, is associative |
| ArchiveMeaning.ChosenIsFinal | tools/assemble_request_archive.py:56-64 | What is stored is the last of the events with the greatest timestamp, or nothing if there are none |
| ArchiveMeaning.GroupHolds | tools/assemble_request_archive.py:41-54 | A group exists iff an event has its id, and holds exactly those events in order and their files |
| ArchiveMeaning.FilesConserved | tools/assemble_request_archive.py:21-51 | Non-blank lines = grouped events + warnings |
| ArchiveMeaning.WarningsMeaning | tools/assemble_request_archive.py:29-39 | A warning, with its file, line number and problem, is given for exactly the lines that call for it |
| ArchiveMeaning.PathsMeaning | tools/assemble_request_archive.py:52-54 | The source files of an id are those that carry it, each once |
| ArchiveMeaning.ShuffleKeepsIds | tools/assemble_request_archive.py:41-64 | Reordering lines, even across files, keeps the ids and which of them have a request or response |
| ArchiveMeaning.ChoiceStableIff | tools/assemble_request_archive.py:56-64 | Reordering never changes the stored event, if and only if the latest events are all the same |
| ArchiveMeaning.TieBrokenByOrder | tools/assemble_request_archive.py:63-64 | Two events with one timestamp: the order decides |
| ArchiveRecords.StatusMeaning | tools/assemble_request_archive.py:34-79 | An id has a record, if and only if some line holds a request or a response of it; the status says which of the two texts the lines hold; the empty status is unreachable |
| ArchiveRecords.RecordMeaning | tools/assemble_request_archive.py:69-122 | A record field by field, truncation flags, account fallback, source files and sort key included, from the final request and the final response of its id |
| ArchiveRecords.OutputMembers | tools/assemble_request_archive.py:158-161 | The output has exactly one record per id |
| ArchiveRecords.OutputStrict | tools/assemble_request_archive.py:118-122 | The output is in order of timestamps as text, and of ids where they are equal, strictly |
| ArchiveRecords.StrictUnique | tools/assemble_request_archive.py:158-161 | Such an order is canonical: the set of records determines the sequence |
| ArchiveRecords.AssembleArchive | tools/assemble_request_archive.py:155-174 | The whole program: records, warnings, and three counts that add up to the number of records |
| ArchiveShuffles.ShuffleKeepsOutput | tools/assemble_request_archive.py:158-161 | When latest events agree, reordering lines, even across files, keeps all records and their order, source-file lists aside |
| ArchiveShuffles.OutputStableIff | tools/assemble_request_archive.py:158-161 | Reordering never changes the output, source-file lists aside, if and only if the latest events of every id and type agree |
| ArchiveShuffles.ShuffleWithinKeepsOutput | tools/assemble_request_archive.py:21-64 | When latest events agree, reordering the lines within each file changes nothing in the output, source-file lists included |
| ArchiveShuffles.DistinctStampsKeepOutput | tools/assemble_request_archive.py:158-161 | In particular when same-type events of an id have distinct timestamps |
| ArchiveShuffles.ShuffleKeepsStatus | tools/assemble_request_archive.py:69-79 | Whatever the timestamps, reordering keeps each record's status |

## Left out

- SQL text, `sqlgraph`, drivers, transactions, interceptors, `ForUpdate`/`ForShare`: the driver is its contract, returning the rows that satisfy the predicates in scan order, cut to offset and limit, or failing.
- `Order`, `Unique`, `Modify`, `GroupBy`, `Aggregate`, query paths and `Clone`: the scan order of every table is arbitrary instead.
- Running one builder twice: loading appends predicates to nested builders in place, so builders are values here and each is run once.
- Limits of zero: limits are positive here; what the library does with zero is not part of this model.
- Groups, proxies and usage logs have no edges of their own here; their columns and the accounts' further columns are parameters, and of a column list only the leading columns are fixed.
- EagerLimits.AccountGroupsLimitIff: behind an offset, that only harmless windows agree is not claimed for rows that the selected columns do not tell apart, because they can stand in for each other.
- EagerHarmless.HarmlessIsPerEntity: groups have no offset or limit there; `GroupsLimitIff` covers that edge.
- EagerJoins.GroupsLimitIff: joins that repeat a pair are excluded, because a repeated row can be cut without harm; a composite primary key rules them out.
- EagerTheorems.BatchedIsPerEntity: agreement on groups is up to their order, because the batch fixes one order for all accounts (`GroupOrderIff` says when it is the account's own).
- EntNodes.Account.AssignValues: a cell of the wrong SQL type is NULL here; the source returns an error that the scan types rule out. The further columns are kept as cells, not parsed.
- EntNodes.AccountGroup.AssignValues: likewise for cells of the wrong SQL type.
- `FirstID`, `OnlyID`, `IDs`, `Count`, `Exist` and the `*X` variants: the same queries without edges.
- BulkCreate.AccountCreateBulk.Save: hooks that pass on a different mutation object are not modelled; the source checks the builder's own mutation before it takes over the one it is given. A bulk error set before `Save`, and conflict options, are left out.
- `createSpec` field by field: a spec is the mutation's fields; edge specs are left out. Setters and upserts are plumbing.
- BulkCreate.Mutate: a retrying hook calls the rest of the chain at most twice; several in a row call it more often. A hook that calls it again after a success is not modelled.
- Error and warning texts: they never decide a result. Of titles, only whether they join is kept.
- Strings.NormalizedEqually: lower-casing is ASCII only; Unicode case folding is not modelled.
- Date parsing and today's date are parameters of the gate, JSON decoding is a parameter of the assembler, and argument parsing, file globbing and file writing are left out.
- AuditParser.ParseRoundTrip: lines are given already split, so values with line breaks do not arise; keys are restricted to those that survive stripping and do not look like a comment, a dash or a section head.
- JSON values that are not objects, and report sections or lists of other types: the source raises an error or skips them.
- Timestamps and ids are shown as Python shows text and integers; how other values are shown is part of the value.
- Other entities' builders, which repeat the account template, and everything outside the files cited above.
