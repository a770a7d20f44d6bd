# Bulk creation, eager loading, the row codec and the audit gate

This project models four pieces of the repository and proves what callers rely on.

**Bulk creation** (`Bulk*.dfy`, `APIKeySave.dfy`). `APIKeyCreateBulk.Save` builds one closure
per builder, wraps each in that builder's hooks, and lets every core call the next builder's
mutator before it publishes its own node. `BulkSpec` is that chain with the closures made
into data: mutator (i, l) is hook l of builder i, and a hook is a finite script over the
mutation it was given (look at it, edit it, call `next` any number of times and with any
mutation, return any outcome). `BulkSave` is the same chain on objects and arrays, proved
equal to it step by step. `BulkRefinement` shows that under hook discipline (each hook calls
`next` exactly once and passes its errors on; it may hand `next` any mutation, and may err
itself after `next` succeeded) the recursion is a two-phase loop; `BulkTheorems` derives from
it when BatchCreate runs, with what, and what is marked afterwards. Two further clauses are
named where they are used: *faithful* hooks hand `next` their own mutation, *steadfast* hooks
never turn its success into an error; plain all-or-nothing needs the second. `BulkTrace` has
the nesting of calls, and `BulkLimits` what each clause is for, with a run that breaks it. The recursion
terminates on the lexicographic measure (builders left, hooks left, rest of the script),
which is the `decreases` clause of `BulkSpec.Mutate`, `RunHook` and `Core`.

**Eager loading** (`Eager*.dfy`). `EagerSpec` defines what a query with `With*` edges should
return as nested loops over an abstract row store. The generated loaders are copies of two
templates; here a builder is an object with its table, fields, predicates and child builders,
and `EagerLoad.SqlAll` runs the batched algorithm on it (collect keys, add an IN predicate to
the child builder, run it, scatter through a map of node pointers) at any depth of nesting.
It is proved to build an object graph that shows exactly the nested-loop join, for nullable,
shared and repeated keys and for any projection. `EagerRerun` and `EagerResults` treat
re-execution of a builder whose children keep the IN predicates of earlier runs,
`EagerSlices` the separation of clones with Go's slice headers and buffers.

**The codec** (`APIKeyModel.dfy`, `APIKeyCodec.dfy`, `APIKeyChecks.dfy`). `createSpec`,
`scanValues`, `assignValues`, `defaults` and `check` of an API key, column by column, and the
round trip between the node a create returns and the node read from the row it wrote.

**The audit gate** (`Audit*.dfy`). `check_pnpm_audit_exceptions.py`: the line parser of the
exception list, the generator of findings over both audit formats, the first-wins index, the
scan with its `seen` set, and the verdict as a formula over the inputs.

## Where code and intention part

- `BulkLimits`: the core checks `builder.check()` before it replaces `builder.mutation`, so a
  hook that passes another mutation to `next` gets fields to `BatchCreate` that were never
  checked. `UncheckedFieldsAreSent` is such a run; `SubstitutionBypassesCheck` says exactly
  when it happens in a whole save whose hooks call `next` once and pass its errors on. Hooks
  that hand down their own mutation never cause it, whatever else they do
  (`FaithfulHooksSendChecked`).
- `BulkLimits.FailingAfterSuccess`: a hook that errs after `next` succeeded makes `Save` err
  with rows created and mutations marked; `BulkTheorems.SaveIsAllOrNothing` says which: those
  of the builders from that hook's own on.
- `EagerResults.StaleGroupIsMissed`: a builder that is run again after the store changed may
  miss targets, at any depth, because the builders below it keep the keys of the first run.
  `EagerRerun.ReuseIsFreshExactlyWhen` says exactly when it finds what a new builder would:
  edge by edge, the first run never got to it, or there is nothing to find, or the key was
  asked for and the same holds for the rows below.
- Severe entries may pass an empty list of exceptions: a vulnerability no item of whose `via`
  has an id (`AuditVerdict.CriticalVulnerabilityMayPass`), and an advisory without a name
  (`AuditVerdict.NamelessAdvisoryMayPass`); entries of `advisories` that have a name and no id
  fail. `PassesWithoutExceptionsExactlyWhen` says which documents pass.
- `AuditVerdict.OrderMayMatter`: when one package and advisory occurs with two severities
  only the first is compared. `PassesInEveryOrder` and `PassesInSomeOrder` say which lists
  pass in every and in some order, `OrderDecidesExactlyWhen` for which the order decides.
- `AuditVerdict.NumericSourceRaises`: a number that ends up as a title makes `"; ".join` raise,
  even for a vulnerability whose severity does not count. `AuditFindings.ReadableExactlyWhen`
  and `AuditVerdict.GateRaisesExactlyWhen` say when the run ends in an exception.
- `AuditParser.LineBreakSplitsRecord`: a line break in a quoted value starts a new line for the
  parser; `RoundTripExactlyWhen` makes that the only obstacle for records with clean keys.
- `EagerRerun.LimitStarvesTheSecond`: a limit on the builder of a one-to-many edge cuts the rows
  of all parents together; `LimitCutsTheBatch` says which parents keep their lists.

## Model

| member | source | states |
|---|---|---|
| BulkSave.CreateBulk.Save | backend/ent/apikey_create.go:2131-2188 | Save on shared mutation and node objects and three slices ends in the state, with the outcome and the BatchCreate calls, that the functional chain gives, for any hooks |
| BulkSave.CreateBulk.Core | backend/ent/apikey_create.go:2143-2179 | the core closure on objects: type test, check of the mutation the builder holds, build, next mutator or BatchCreate, publish, in that order |
| BulkSave.CreateBulk.RunHook | backend/ent/apikey_create.go:2180-2182 | one hook run on objects does what its script says to the mutation it was given |
| BulkSave.CreateBulk.WriteIds | backend/ent/apikey_create.go:2156-2165 | BatchCreate writes the i-th new ID into the i-th spec of the slice and nothing else |
| BulkSave.CreateBulk.Publish | backend/ent/apikey_create.go:2170-2175 | mutation.id points to the node in slot i, the node gets its spec's ID when there is one, and done is set; nothing else changes |
| BulkRefinement.ChainIsTwoPhase | backend/ent/apikey_create.go:2138-2186 | with hooks that call next once and pass its errors on, whatever mutation they hand it, the whole recursion of callbacks equals one pass down (edit, check, build) and one pass up over the frames left open: same state, outcome and trace |
| BulkRefinement.HookAround | backend/ent/apikey_create.go:2180-2182 | a disciplined hook is an edit before next and an edit after it, around one call of next |
| BulkTheorems.SaveIsAllOrNothing | backend/ent/apikey_create.go:2131-2188 | with hooks that call next once and pass its errors on: BatchCreate is called exactly when every core gets a mutation of the right type and the check of its own passes, then once, with the specs of the mutations handed down in builder order; if it is not called or fails, Save errs and marks nothing; if it succeeds, Save succeeds exactly when no hook turns that into an error, and exactly the builders from that hook's own on, or all, are stored and marked |
| BulkTheorems.SteadfastSave | backend/ent/apikey_create.go:2131-2188 | with hooks that also keep a success, Save errs and marks nothing, or succeeds with every mutation done and every node numbered |
| BulkTheorems.SaveErrsWith | backend/ent/apikey_create.go:2143-2186 | with hooks that return an error of next as it is, Save ends in the error of the first core whose check fails, or the one for unexpected mutations at the first foreign mutation, or, when the driver rejects the call, in a constraint error exactly when it was a constraint violation and in the driver's otherwise |
| BulkTheorems.PendingErrorIsReturned | backend/ent/apikey_create.go:2132-2134 | a bulk builder created with an error returns that error and does nothing |
| BulkTheorems.DefaultsReachEachBuilder | backend/ent/apikey_create.go:2138-2141 | every builder's mutation gets its defaults once, and no other mutation changes |
| BulkTheorems.FaithfulRoute | backend/ent/apikey_create.go:2144-2152 | with hooks that hand down their own mutation every core is handed the one it checks |
| BulkTheorems.DownRejects | backend/ent/apikey_create.go:2144-2155 | from any point of the chain, a later failing check or foreign mutation ends the descent with an error, no call and no mark |
| BulkTheorems.DownSends | backend/ent/apikey_create.go:2148-2166 | from any point of the chain, passing checks lead to exactly one BatchCreate on the state in which all remaining nodes and specs were built in order |
| BulkTheorems.UpFails | backend/ent/apikey_create.go:2167-2169 | an error passes every open call without setting done or id anywhere |
| BulkTheorems.UpSucceeds | backend/ent/apikey_create.go:2167-2186 | on the way back from a successful BatchCreate the cores mark their mutations and number their nodes until a hook turns the success into an error, and nothing else is marked |
| BulkTrace.WellNested | backend/ent/apikey_create.go:2138-2186 | for any hooks at all the trace is well nested: hooks[0] outermost, core i inside the hooks of i, all of builder i+1 inside core i, BatchCreate only inside the last core |
| BulkTrace.ExactTrace | backend/ent/apikey_create.go:2138-2186 | with disciplined hooks the trace is the calls down to the first core that fails or gets a foreign mutation, BatchCreate if none does, and the returns in reverse order |
| BulkLimits.DefaultsFailureIsNotLost | backend/ent/apikey_create.go:2141-2149 | without hooks, an ignored error of defaults still makes Save err with no BatchCreate and no mark, whenever failed defaults leave something check refuses |
| BulkLimits.SubstitutionBypassesCheck | backend/ent/apikey_create.go:2148-2152 | for whole saves with hooks that call next once and pass its errors on: BatchCreate is called exactly when all held mutations pass, and carries unchecked fields exactly when, besides, some core was handed a mutation that does not pass |
| BulkLimits.FaithfulHooksSendChecked | backend/ent/apikey_create.go:2138-2186 | with hooks that hand down their own mutation, and otherwise call next any number of times, refuse, swallow or invent errors, every spec of every BatchCreate call was made from fields that pass the check |
| BulkLimits.UncheckedFieldsAreSent | backend/ent/apikey_create.go:2148-2152 | a hook that swaps the mutation gets fields that fail their check to BatchCreate |
| BulkLimits.FailingAfterSuccess | backend/ent/apikey_create.go:2170-2186 | a hook that errs after next succeeded makes Save err with BatchCreate called and the mutation done |
| BulkLimits.NoCallAfterRefusal | backend/ent/apikey_create.go:2138-2186 | with hooks that call next at most once, refusing included, BatchCreate is called at most once, and only if every hook and core was entered |
| BulkLimits.CallingNextTwice | backend/ent/apikey_create.go:2154-2160 | a hook that calls next twice makes two BatchCreate calls |
| BulkLimits.SwallowingTheError | backend/ent/apikey_create.go:2154-2186 | a hook that swallows next's error makes Save succeed although BatchCreate failed |
| BulkLimits.SkippingNext | backend/ent/apikey_create.go:2180-2188 | a hook that does not call next makes Save succeed with a nil node and nothing created |
| BulkLimits.ForeignMutationIsRefused | backend/ent/apikey_create.go:2144-2147 | a mutation of another type handed to next makes Save fail with that error and no call |
| BulkLimits.HooksSeeAndEdit | backend/ent/apikey_create.go:2180-2182 | a hook decides by the fields of its mutation, and the fields it leaves there are those that are sent |
| APIKeySave.UninitializedDefaultsFailSave | backend/ent/apikey_create.go:2141-2149 | for API keys without hooks, a defaults function that is nil makes Save fail before BatchCreate, although the error of defaults is dropped |
| APIKeySave.SavedKeysReadBack | backend/ent/apikey_create.go:2131-2188 | after a successful bulk save of API keys there is one call with one spec per builder; each returned node carries the ID the driver answered for its spec, 0 if none, and reading the row of its spec under any ID gives the node's data under that ID |
| APIKeySave.CreateSpecReturns | backend/ent/apikey_create.go:708-914 | createSpec's promise determines its node and its spec |
| APIKeyChecks.Builder.Defaults | backend/ent/apikey_create.go:511-590 | the stepwise defaults with its early returns leaves the mutation and the error its specification gives |
| APIKeyChecks.DefaultsFill | backend/ent/apikey_create.go:511-590 | no set field is overwritten and only defaults are added; no error exactly when all defaulted fields end up set, exactly when each was set or has a default |
| APIKeyChecks.DefaultsGive | backend/ent/apikey_create.go:511-590 | after success each of the fourteen fields with a constant default that was unset holds the constant of that same field, and created_at, updated_at and model_mapping what their own functions gave |
| APIKeyChecks.DefaultsErrWith | backend/ent/apikey_create.go:511-590 | an error names the first of those three that is unset and has no function, and there is one only then |
| APIKeyChecks.DefaultsTwice | backend/ent/apikey_create.go:511-590 | a second call changes nothing and returns the same |
| APIKeyChecks.Builder.Check | backend/ent/apikey_create.go:593-651 | passes exactly when every rule holds, and otherwise names the first rule that does not |
| APIKeyChecks.CheckPassesExactlyWhen | backend/ent/apikey_create.go:593-651 | passes exactly when the twenty required fields are set and every set validated field is accepted; the user edge test never fails alone |
| APIKeyChecks.CheckPassesOnValues | backend/ent/apikey_create.go:593-651 | the same on the values the mutation holds, with the fields written out |
| APIKeyChecks.CheckErrsWith | backend/ent/apikey_create.go:593-651 | an error carries the name the source gives the first rule that does not hold |
| APIKeyChecks.DefaultsFailureIsChecked | backend/ent/apikey_create.go:511-651 | a field that defaults could not fill is one check requires, so check fails before and after |
| APIKeyChecks.AfterDefaults | backend/ent/apikey_create.go:511-651 | after successful defaults check depends only on user, key, name and the validators |
| APIKeyCodec.CreateSpec | backend/ent/apikey_create.go:708-914 | every node field is what the mutation sets, or zero; the spec has exactly the set columns, encoded, and the edges in their order |
| APIKeyCodec.RunEdges | backend/ent/apikey_create.go:830-912 | the edge stanzas set exactly the foreign key fields that have a target and append the edges in order |
| APIKeyCodec.SpecCarriesEdges | backend/ent/apikey_create.go:830-912 | under each foreign key column the spec carries exactly the IDs the mutation holds for that edge |
| APIKeyCodec.UnsetFields | backend/ent/apikey_create.go:708-829 | a field left unset is nil when its column is nullable and zero otherwise |
| APIKeyCodec.TypesAgree | backend/ent/apikey.go:163-184 | column type, struct field and holder of a field agree, and the pointer fields are the nullable columns |
| APIKeyCodec.TablesAgree | backend/ent/apikey.go:163-413 | every column is written from, and read back into, the same field, through the holder scanValues makes for it |
| APIKeyCodec.ScanValues | backend/ent/apikey.go:163-184 | one holder of the right kind per column, in order |
| APIKeyCodec.Entity.AssignValues | backend/ent/apikey.go:188-413 | the loop over columns with its early error returns leaves the struct, the extra values and the error its specification gives, on new and on filled receivers |
| APIKeyCodec.UnmarshalMerges | backend/ent/apikey.go:291-298 | a JSON object is added to the map a receiver holds, so the field takes on the document exactly when it names every entry that is there |
| APIKeyCodec.RejectsWrongHolder | backend/ent/apikey.go:193-410 | a case returns the unexpected type error exactly when the holder is not the one scanValues makes |
| APIKeyCodec.OneColumn | backend/ent/apikey.go:192-410 | NULL empties the ID and leaves any other field; a value or fitting document goes into the field of its column only; another document is an error that changes nothing |
| APIKeyCodec.ExtrasAreKept | backend/ent/apikey.go:408-410 | a column the struct does not know keeps its last holder under its name, and no other name changes |
| APIKeyCodec.TooFewToAssign | backend/ent/apikey.go:189-191 | the length error occurs exactly when there are fewer values than columns, and then nothing is assigned |
| APIKeyCodec.WriteReadRoundTrip | backend/ent/apikey.go:188-413 | for any columns in any order, reading the row createSpec describes never fails, fills exactly the fields of those columns with the node's values, and keeps nil for unset nullable columns |
| APIKeyCodec.WholeRowRoundTrip | backend/ent/apikey_create.go:708-914 | with all columns the node createSpec returned comes back whole |
| EagerLoad.SqlAll | backend/ent/apikey_query.go:516-582 | run on builder objects of any depth, with a limit and an offset at the root: fails exactly when the run meets an invalid field; otherwise returns distinct nodes whose object graph shows the nested-loop join of the rows between offset and limit, and leaves the builder tree as `Touch` says |
| EagerRerun.MeetsExactlyWhen | backend/ent/apikey_query.go:776-782 | a row meets the accumulated predicates when every test passes and every IN predicate holds its id or its column |
| EagerRerun.SelectFilters | backend/ent/apikey_query.go:776-782 | the rows of a query are those of the table that meet the predicates, in table order |
| EagerRerun.RowsBetween | backend/ent/apikey_query.go:783-788 | row k of a query with limit and offset is row offset + k of the whole, and their number is the limit, if positive, or what is left after the offset |
| EagerRerun.PagesMakeTheWhole | backend/ent/apikey_query.go:783-788 | the pages at offsets 0, limit, twice the limit and so on, put together, are all the rows |
| EagerResults.RunPage | backend/ent/apikey_query.go:516-582 | node k of a run with limit and offset shows tree offset + k of the whole join |
| EagerResults.NodeHoldsRow | backend/ent/apikey_query.go:528-538 | a node holds its row's values for exactly the columns that were asked for |
| EagerResults.AnswersMeans | backend/ent/apikey_query.go:490-514 | a selected field that is no column makes the run fail, at the root always and on an edge when its builder is asked |
| EagerResults.ChildFieldsAre | backend/ent/apikey_query.go:655-657 | a target is asked for what its builder selects, and for its foreign key only besides a selection |
| EagerLoaders.KeyIs | backend/ent/apikey_query.go:614-620 | a key is the scanned value; otherwise nil in a pointer field and 0 in a plain one |
| EagerRerun.FirstKeysInOrder | backend/ent/apikey_query.go:614-625 | keys are asked for in the order in which they first occur |
| EagerRerun.WithKeyFilters | backend/ent/apikey_query.go:645-674 | the rows with a key are picked in the order of the store |
| EagerRerun.LimitCutsTheBatch | backend/ent/apikey_query.go:783-788 | with a limit or an offset on a one-to-many builder a parent keeps its list exactly when none of its rows lie before the offset or behind the limit of the whole batch |
| EagerRerun.LimitStarvesTheSecond | backend/ent/apikey_query.go:645-674 | two parents with one row each and a limit of 1: the second gets an empty list |
| EagerLoad.LoadOne | backend/ent/apikey_query.go:613-644 | every parent's pointer shows the row its key names, nil keys stay nil, other edges are untouched, and no query is made without keys |
| EagerLoad.LoadMany | backend/ent/apikey_query.go:645-674 | every parent's list shows the rows with its id in order, empty if none, other edges untouched |
| EagerLoad.LoadEdges | backend/ent/apikeycompositegroup_query.go:437-449 | the enabled edges loaded one after another all show their join, without disturbing one another |
| EagerLoad.RunTarget | backend/ent/apikey_query.go:655-664 | the child builder gets its foreign key selected once if it selects fields, one IN predicate, and returns the join of what it then asks for |
| EagerLoad.SpecColumns | backend/ent/apikey_query.go:758-775 | the column list with its AddColumnOnce steps is the specified one |
| EagerLoad.LoadedTypes | backend/ent/apikey_query.go:520-526 | the flags name exactly the edges that have a builder |
| EagerLoaders.Collect | backend/ent/apikey_query.go:614-625 | the id list is the non-nil keys in order of first occurrence without repetition, and the map holds for each key the parents with it in order |
| EagerLoaders.ScatterOne | backend/ent/apikey_query.go:634-642 | fails exactly when a neighbour's id was not asked for; otherwise all parents of a key point to the same neighbour and the others are untouched |
| EagerLoaders.CollectIds | backend/ent/apikey_query.go:646-654 | all ids are asked for, the map holds the last parent of each id, and every list starts empty |
| EagerLoaders.ScatterMany | backend/ent/authidentity_query.go:578-590 | fails exactly when a neighbour's key is nil or was not asked for; otherwise each list is extended by the neighbours with its id in order, and of parents with the same id only the last receives them |
| EagerLoad.ManyAnswered | backend/ent/authidentity_query.go:572-590 | when the store honours the IN predicate every neighbour has a requested key, nullable or not, so the scatter cannot fail |
| EagerRerun.BatchingKeepsMatches | backend/ent/apikey_query.go:629-642 | restricting the target to the requested keys keeps the matches of a parent that requested its key, and removes all of any other |
| EagerRerun.BatchIsNestedLoop | backend/ent/apikey_query.go:645-674 | for the parents of the batch the IN query answers what one query per parent would |
| EagerResults.TwoLevelJoin | backend/ent/apikeycompositegroup_query.go:481-509 | WithCompositeGroups configured with WithGroup: every key carries exactly its composite rows in order, and every composite row its group exactly when the group query selects it, for shared and repeated keys |
| EagerRerun.RerunIsStable | backend/ent/apikey_query.go:629-672 | the builder tree a run leaves behind has the same join over an unchanged store |
| EagerResults.RunTwice | backend/ent/apikey_query.go:516-582 | two runs of one builder object return the same join, or the first fails |
| EagerRerun.ReuseIsFreshExactlyWhen | backend/ent/apikey_query.go:541-672 | the builder tree one run left behind has, over a changed store, the join of an unused one exactly when for every row and edge, at every depth, the first run found no parents or asked for nothing, or there is nothing to find, or the key was asked for and the rows below are alike |
| EagerResults.RunAgain | backend/ent/apikey_query.go:516-582 | one builder object run over a store and then over the changed one: what each run returns, and when the second is what an unused builder would return |
| EagerResults.StaleGroupIsMissed | backend/ent/apikeycompositegroup_query.go:481-509 | a composite row moved to another group between two runs of one builder loses its group in the second |
| EagerResults.ValidFieldsAnswer | backend/ent/apikey_query.go:490-514 | valid selections at every level are enough for a run to succeed |
| EagerSpec.ProjectedColumns | backend/ent/apikey_query.go:758-775 | with a projection the columns start with the id, hold it once, and are the id, the selected fields and the foreign keys of enabled many-to-one edges, no more and no less |
| EagerResults.ProjectionKeepsEdges | backend/ent/apikey_query.go:655-775 | builders that differ in the selected fields at any level have the same rows, ids and nesting |
| EagerResults.RunProjections | backend/ent/apikey_query.go:516-582 | two runs of such builders show joins of the same ids, nested alike |
| EagerLoad.ChildKeyScanned | backend/ent/apikey_query.go:655-657 | a one-to-many target always has its foreign key among its columns |
| EagerResults.AccessorsReport | backend/ent/apikey.go:113-160 | an accessor reports not loaded exactly when its With was not used, not found exactly when it was used and no row matched, and otherwise gives the matches |
| EagerResults.ListsPartition | backend/ent/apikey_query.go:645-674 | with distinct parents and requested keys every neighbour is in exactly one parent's list |
| EagerResults.LoadPartitions | backend/ent/apikey_query.go:645-674 | after a one-to-many load the parents' own lists together hold every row the target query returned exactly once |
| EagerSlices.Append | backend/ent/apikey_query.go:44-47 | Go's append: in the same buffer exactly when it has room, otherwise in a new one, and the old slice keeps its elements |
| EagerSlices.SharedHeader | backend/ent/apikey_query.go:366-376 | with a copied header instead of a copied slice, one side's append overwrites the other's exactly when the buffer has room |
| EagerSlices.Builder.ApplyAt | backend/ent/apikey_query.go:44-72 | an operation on any builder of the tree changes that builder only |
| EagerSlices.Builder.Where | backend/ent/apikey_query.go:44-47 | Where appends its predicates to those of the builder and changes nothing else, whatever the capacity |
| EagerSlices.Builder.Order | backend/ent/apikey_query.go:69-72 | Order appends its terms to the builder's order and changes nothing else |
| EagerSlices.AppliedOnlyThere | backend/ent/apikey_query.go:44-72 | an operation at a path does there what it does at the root and changes no builder that is not on the way |
| EagerSlices.CopiedEverywhere | backend/ent/apikey_query.go:366-385 | at every path the clone has a builder exactly when the original has, with the same contents and no modifiers |
| EagerSlices.Builder.Clone | backend/ent/apikey_query.go:366-385 | fresh buffers for order, interceptors and predicates, the same context, and a fresh tree of children with the same contents, modifiers dropped at every level |
| EagerSlices.CloneThenEdit | backend/ent/apikey_query.go:44-72 | after a clone, any interleaving of Where, Order, interceptors and context changes on either side at any depth leaves each side with its own edits only, whatever capacities the runtime chooses |
| AuditText.StripPadded | tools/check_pnpm_audit_exceptions.py:15-20 | strip removes exactly the white space around a trimmed text |
| AuditText.SplitKv | tools/check_pnpm_audit_exceptions.py:12-20 | raises exactly when the line has no colon |
| AuditText.SplitPlain | tools/check_pnpm_audit_exceptions.py:12-20 | after a clean key a value written as it is comes back exactly when it has no white space at its ends and does not start and end with one kind of quote |
| AuditText.OtherBreaks | tools/check_pnpm_audit_exceptions.py:27-28 | "\r\n" and "\r" end a line as "\n" does, the first as one break |
| AuditText.SpacesAre | tools/check_pnpm_audit_exceptions.py:15-30 | the white space that strip removes, character by character |
| AuditText.SplitQuoted | tools/check_pnpm_audit_exceptions.py:12-20 | a clean key and any quoted value come back, whatever colons and quotes the value holds |
| AuditParser.ParseExceptions | tools/check_pnpm_audit_exceptions.py:23-48 | the line loop with `current` returns what its specification gives, or raises |
| AuditParser.ItemHasText | tools/check_pnpm_audit_exceptions.py:38-41 | an item line always has text after its dash, so the empty branch is dead |
| AuditParser.OneRecordPerItem | tools/check_pnpm_audit_exceptions.py:23-48 | raises exactly when some item line has no colon; otherwise one non-empty record per item line |
| AuditText.LinesConcat | tools/check_pnpm_audit_exceptions.py:27-28 | a text that ends where a line ends has its own lines first, whatever follows |
| AuditParser.RenderThenParse | tools/check_pnpm_audit_exceptions.py:23-48 | writing clean records to a file and parsing its lines is the identity, for any indentation, each value plain or in either quote, and any values without line breaks |
| AuditParser.RoundTripExactlyWhen | tools/check_pnpm_audit_exceptions.py:23-48 | for clean keys that do not repeat the identity holds exactly when no key and no value holds a line break |
| AuditParser.LineBreakSplitsRecord | tools/check_pnpm_audit_exceptions.py:27-41 | a record whose value holds a line break is read as two |
| AuditParser.SkippedLinesDoNotMatter | tools/check_pnpm_audit_exceptions.py:31-34 | comments, blank lines and headers change nothing, wherever they stand |
| AuditParser.OtherLinesDoNotMatter | tools/check_pnpm_audit_exceptions.py:43-45 | a line that is no item changes nothing when it has no colon or no item came before it |
| AuditFindings.IterVulns | tools/check_pnpm_audit_exceptions.py:64-111 | the generator over both formats yields the specified findings in order, and raises exactly when the document cannot be read |
| AuditFindings.ReadableExactlyWhen | tools/check_pnpm_audit_exceptions.py:51-111 | a document can be read exactly when it is an object, every advisory is one with a GHSA id, a URL or a `cves` that can be indexed, and every vulnerability is one in whose `via` the first of title, url, advisory and source with a value is text |
| AuditFindings.FindingsYield | tools/check_pnpm_audit_exceptions.py:64-111 | the findings are, in order, one for each advisory with its name, severity and picked id, then for each vulnerability one for each id of its `via` under its name and severity; the id of an object is the first with a value of GHSA id, URL, source, title, name, and a text is its own |
| AuditFindings.TruthyExactlyWhen | tools/check_pnpm_audit_exceptions.py:51-111 | None, false, 0 and empty texts, lists and objects are false, anything else is true |
| AuditFindings.GetFinds | tools/check_pnpm_audit_exceptions.py:51-111 | a member is found under its name, and None where there is none |
| AuditFindings.FirstCveIs | tools/check_pnpm_audit_exceptions.py:56 | the first CVE of a list, the first character of a text, None for neither |
| AuditFindings.PicksFirstTruthy | tools/check_pnpm_audit_exceptions.py:51-61 | the id of an advisory is the first candidate with a value, in the order GHSA, URL, CVE, id, title, advisory, overview; it raises only over a `cves` that cannot be indexed |
| AuditFindings.SilentExactlyWhen | tools/check_pnpm_audit_exceptions.py:82-111 | a vulnerability yields no finding exactly when no item of `via` has an id |
| AuditGate.IndexExceptions | tools/check_pnpm_audit_exceptions.py:156-185 | the first loop computes the specified index and errors |
| AuditGate.ScanFindings | tools/check_pnpm_audit_exceptions.py:191-219 | the second loop computes the specified problems, or raises |
| AuditGate.RunGate | tools/check_pnpm_audit_exceptions.py:142-243 | the whole run ends in the specified verdict with its problems in order |
| AuditTheorems.IndexIsFirstWins | tools/check_pnpm_audit_exceptions.py:156-185 | the index has exactly the listed keys, each with the entry of the first record that lists it |
| AuditTheorems.IndexedOrReported | tools/check_pnpm_audit_exceptions.py:156-185 | every record is either indexed or reported |
| AuditTheorems.NoErrorsExactlyWhen | tools/check_pnpm_audit_exceptions.py:156-185 | no error exactly when all records are well formed with pairwise distinct keys |
| AuditTheorems.WellFormedExactlyWhen | tools/check_pnpm_audit_exceptions.py:156-174 | a record is well formed exactly when its five fields are there and not empty, its date can be read and package and advisory are not blank; then it lists the stripped package and the advisory and severity in lower case |
| AuditTheorems.RecordProblems | tools/check_pnpm_audit_exceptions.py:156-185 | each record adds at most one problem behind the earlier ones: the one it is the reason for |
| AuditTheorems.FindingProblems | tools/check_pnpm_audit_exceptions.py:191-219 | each finding adds, behind the earlier ones, exactly the problems it is the reason for: no id, another severity, not listed, expired |
| AuditTheorems.ReportIsSorted | tools/check_pnpm_audit_exceptions.py:221-243 | the report has the problems of the exceptions, then of the findings, then what is not listed, then what expired |
| AuditTheorems.SevereExactlyWhen | tools/check_pnpm_audit_exceptions.py:193-205 | a finding counts exactly when its severity in lower case is high or critical and it has a name; its key is the stripped name and the id in lower case, and it lacks an id when that is None or blank |
| AuditVerdict.AlikeGetTheSameVerdict | tools/check_pnpm_audit_exceptions.py:114-131 | exceptions and findings that are alike up to white space and lower-casing get the same verdict |
| AuditTheorems.ScanMeans | tools/check_pnpm_audit_exceptions.py:191-219 | the scan raises exactly when a severity is not text, sees exactly the keys of its findings, and has no problem exactly when each finding is ignored, repeated or accepted |
| AuditVerdict.PassesExactlyWhen | tools/check_pnpm_audit_exceptions.py:151-243 | exit code 0 exactly when all exceptions are well formed with distinct keys, every severe named finding has an id, and the first finding of each key is covered by an unexpired exception of no or the same severity |
| AuditVerdict.GatePassesExactlyWhen | tools/check_pnpm_audit_exceptions.py:142-243 | the same from the file of the exceptions and the audit document: no item line without a colon, a document that can be read, and the formula |
| AuditVerdict.GateRaisesExactlyWhen | tools/check_pnpm_audit_exceptions.py:142-243 | the run ends in an exception exactly when an item line has no colon, the document cannot be read, or a severity with a value is not text |
| AuditVerdict.NumericSourceRaises | tools/check_pnpm_audit_exceptions.py:96-109 | a vulnerability of low severity whose only title is a number makes the run raise |
| AuditVerdict.RepetitionsAreInvisible | tools/check_pnpm_audit_exceptions.py:191-206 | deleting a finding whose key was seen changes no problem and no verdict |
| AuditVerdict.SeenScanIsNaive | tools/check_pnpm_audit_exceptions.py:191-219 | when equal keys have equal severities the scan passes exactly when every finding passes on its own |
| AuditVerdict.OrderDoesNotMatter | tools/check_pnpm_audit_exceptions.py:191-219 | then the verdict is the same for every permutation |
| AuditVerdict.PassesInEveryOrder | tools/check_pnpm_audit_exceptions.py:191-219 | in general all permutations pass exactly when every finding passes on its own |
| AuditVerdict.PassesInSomeOrder | tools/check_pnpm_audit_exceptions.py:191-219 | some permutation passes exactly when every finding passes on its own or shares its key with one that does |
| AuditVerdict.OrderDecidesExactlyWhen | tools/check_pnpm_audit_exceptions.py:191-219 | some permutation passes and another fails exactly when the second holds and the first does not |
| AuditVerdict.OrderMayMatter | tools/check_pnpm_audit_exceptions.py:191-215 | an exception file and two advisories with one key and two severities: the document passes in one order only, for any day up to the expiry |
| AuditVerdict.EarlierDaysPass | tools/check_pnpm_audit_exceptions.py:216-219 | a pass holds on every earlier day |
| AuditVerdict.FreshExceptionKeepsPass | tools/check_pnpm_audit_exceptions.py:156-219 | inserting a well-formed exception with a fresh key anywhere keeps a pass, and removing it keeps one exactly when no finding has its key |
| AuditVerdict.AppendingAnExceptionKeepsPass | tools/check_pnpm_audit_exceptions.py:23-243 | the same for an exception written at the end of the file, after a complete last line |
| AuditVerdict.PassesWithoutExceptionsExactlyWhen | tools/check_pnpm_audit_exceptions.py:64-219 | with no exceptions any document passes exactly when it can be read, every advisory has a severity that does not count or no name, and every vulnerability has no id, such a severity, or no name |
| AuditVerdict.NamelessAdvisoryMayPass | tools/check_pnpm_audit_exceptions.py:67-79 | a critical advisory with an id and without a name passes |
| AuditVerdict.OneVulnerabilityPassesExactlyWhen | tools/check_pnpm_audit_exceptions.py:82-111 | a document with one vulnerability passes with no exceptions exactly when it can be read and has no id, or its severity does not count, or its name is empty |
| AuditVerdict.SilentVulnerabilityPasses | tools/check_pnpm_audit_exceptions.py:82-111 | one that has no id passes, however severe |
| AuditVerdict.CriticalVulnerabilityMayPass | tools/check_pnpm_audit_exceptions.py:82-111 | for instance a critical one without `via` |

## Left out

- EagerLoad.SqlAll: Order, Unique, modifiers, interceptors and traversal paths are not interpreted, and the builders it is stated for do not use them; the row store returns the rows that meet all predicates in table order, between offset and limit. Builders of edges have no limit or offset in the joins; what those do is `EagerRerun.LimitCutsTheBatch`. Negative limits, failures of the driver and cancelled contexts are not modelled.
- EagerSlices.Builder.Clone: the query context, whose own Clone is not shown, is copied as a value. The builders the loaders run on (`EagerQuery`) hold their fields and predicates as values; `EagerSlices` has the slices.
- APIKeyCodec.CreateSpec: the generated stanzas are a table walked by a loop, as are the cases of `scanValues` and `assignValues` and the steps of `defaults` and `check`.
- APIKeyCodec.WriteReadRoundTrip: the database returns the values it was given; precision of times and floats is not modelled, and JSON is an identity codec on the two shapes these columns have.
- BulkSave.CreateBulk.Save: the objects start with no id; a builder is identified with the mutation it points to, and builders may share a mutation.
- BulkSpec hooks are finite scripts that decide by the fields of their own mutation: hooks that panic, keep state between calls, look at other objects, or are nil are not modelled, and the value a hook returns beside its error is dropped, as every caller in Save drops it. A test on a mutation of a foreign type is false.
- The two loader templates, many-to-one and one-to-many, are modelled once with the edge as a parameter instead of once per generated copy; edges of one builder are loaded in a list instead of five fixed fields.
- The default functions return the same value at every call of one save; validators are parameters.
- The other generated entities, single create, update and delete repeat this logic.
- Upsert options, contexts, transactions, row locks, SQL text and `String` methods.
- AuditGate.RunGate: reading files, JSON decoding, argument parsing and message texts are left out; `str.lower`, `str` of non-strings and `date.fromisoformat` are parameters, and problems are data.
- AuditFindings: JSON numbers are integers; titles are only followed as far as they can make the run raise.
