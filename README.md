# sails-nedb core, modelled in Dafny

sails-nedb is a Waterline adapter that stores collections in nedb, an
embedded document store with a MongoDB-like query language. This project
models the adapter's own logic and proves properties of it:

- **Criteria translation** (`lib/criteria.js`). A Waterline criteria object is
  rewritten in place into a MongoDB-style filter:
  - `id` moves to `_id`;
  - the literal strings `"true"`, `"false"` and `"null"` are coerced;
  - `datetime` fields are parsed as dates;
  - lists become `$in` and `or` becomes `$or`;
  - comparison aliases become `$lt`/`$lte`/`$gt`/`$gte`, and `not`/`!` becomes `$ne`;
  - `contains`/`startsWith`/`endsWith` and plain strings become anchored case-insensitive patterns;
  - `sort` is normalised to `-1`/`1`.

  Update values are split into `$` operators and a `$set` map.
- **Helpers** (`lib/utils.js`): regex metacharacter escaping, `_id` → `id`
  rewriting of records, and an own-property test.
- **Aggregation** (`lib/query/aggregate.js`). The group specification is built
  from `groupBy`/`sum`/`average`/`min`/`max`, and so are its `reduce` and
  `finalize` steps. For a field listed under one directive, they are proved
  to compute its sum, minimum, maximum or average over any sequence of
  documents that all carry the field.
- **Connection bookkeeping** (`lib/connection.js`):
  - the `collections` and `dbs` maps of a connection;
  - schema finalisation when a collection's store is loaded;
  - `describe`, `dropCollection` and `createCollection`;
  - the id handling in `insert`, `insertEach` and `update`.
- **Connection registry** (`index.js`, `lib/adapter.js`): registering and
  tearing down connections, and forwarding each entry point to the named
  connection.

JavaScript values are one datatype (`Json.Value`). Objects are ordered lists of
key/value pairs, because `for…in` in the criteria rewrite replaces the object
it is walking. The nedb store is not modelled. Each call on it becomes a
`StoreRequest` in the result, and its reply is a parameter. `Date.parse`,
`new Date` and `String(x)` of dates, patterns and ids come in through an `Env`
record or an `idText` function. Where the JavaScript would throw (a property
read on `undefined`, a call on a missing connection), the model returns
`Failure(TypeError)`.

Imperative code is modelled by methods with loops or classes. Each is proved
equal to a specification function, and the lemmas state the properties of
those functions. This applies to:

- `parseTypes`, `recursiveParse2`, `normalizeCriteria`, `rewriteCriteria` and `rewriteValues`;
- `rewriteIds`;
- `build`, `reduce` and `finalize`;
- the connection object and `processKey`;
- both adapters' registries.

Where the code is narrower than the adapter's prose description, the model
follows the code:

- `autoIncrement` is deleted only when it is truthy.
- `processKey` runs on every attribute, the identifier included.
- The definition's attribute objects are mutated, because the schema is a
  shallow clone that shares them.
- A falsy `id`/`_id` in update values is kept.

## Model

| member | source | states |
|---|---|---|
| Utils.CaseInsensitive | lib/utils.js:20-23 | a non-string is returned unchanged; a string becomes its escape, in which each metacharacter gets one backslash (`Utils.EscapeAt`); unescaping it gives back the input, and it is longer by exactly its number of metacharacters |
| Utils.EscapeAt | lib/utils.js:22 | within any string, a metacharacter `- [ ] { } ( ) + ? * . / , \\ ^ $ \| #` is replaced by a backslash and itself, any other character by itself, and the text around it is escaped independently |
| Utils.EscapeLength | lib/utils.js:22 | the escaped text is as long as the input plus one backslash per metacharacter |
| Utils.UnescapeEscape | lib/utils.js:22 | dropping the inserted backslashes gives back the input, so every other character is kept in order |
| Utils.EscapeAppend | lib/utils.js:22 | escaping works character by character: escaping a concatenation concatenates the escapes |
| Utils.EscapePlain | lib/utils.js:22 | text without metacharacters (for example `%`) is left unchanged |
| Utils.HasOwnProperty | lib/utils.js:63-66 | a TypeError exactly for `null` and `undefined`; on an object, true exactly for its own keys; on an array or a string, true exactly for `length` and the decimal names of positions below the length; when false, reading the property gives `undefined` |
| Utils.HasOwnPosition | lib/utils.js:63-66 | every position of an array or string is an own property |
| Utils.HasOwnAfterWrite | lib/utils.js:63-66 | after `obj[k] = x` the object owns `k`; after `delete obj[k]` it does not |
| Utils.RewriteId | lib/utils.js:33-42 | a record with a truthy `_id` gets `id` (the text form when `_id` is an object) and loses `_id`, all other keys unchanged; other records are returned as they are; no truthy `_id` is left |
| Utils.RewrittenIds | lib/utils.js:31-44 | same length and order as the input, each record rewritten on its own |
| Utils.RewriteIds | lib/utils.js:31-44 | the `_.map` loop yields each record rewritten, same length and order |
| Utils.RewriteIdsIdempotent | lib/utils.js:33-41 | a second `rewriteIds` changes nothing |
| Criteria.ParseFindOptions | lib/criteria.js:6-8 | the pair is `where` and every other key of the options unchanged, without `where` |
| Criteria.ParseFindOptionsSplit | lib/criteria.js:7 | putting `where` back into the rest gives the original options on every key |
| Criteria.IdMoved | lib/criteria.js:19-22 | a truthy `id` with no truthy `_id` becomes `_id` and `id` disappears; nothing else changes; otherwise the filter is unchanged |
| Criteria.RewriteCriteria | lib/criteria.js:10-29 | no own `where`: options unchanged; `null` where: replaced by `{}` without parsing; `undefined` where: TypeError; otherwise the id move, type parsing (of an object key by key, of an array position by position) and normalisation of every top-level value, in that order |
| Criteria.ParseTypes | lib/criteria.js:50-78 | the in-place `_.each` rewrite computes the type-parsed value: an object key by key, an array position by position, anything else unchanged |
| Criteria.ParseTypeValue | lib/criteria.js:53-74 | the value the callback stores under a key it does not rename, or nothing: a date when the attribute is `datetime` and the value parses, the coerced literal, the number, `{$in: list}` or the nested object parsed against the nested schema |
| Criteria.ParseTypeItems | lib/criteria.js:52-75 | `_.each` over an array rewrites each element under its position's decimal name, same length and order |
| Criteria.ParseTypeField | lib/criteria.js:53-75 | one turn of the `_.each` callback: `or` (not a number or literal string, not `datetime`) is stored as `$or` and deleted, any other key gets the value `ParseTypeValue` stores, if any |
| Criteria.LowerStep | lib/criteria.js:53-75 | rewriting one key leaves the values still to be visited under the other keys as they were, so the nested recursion stays on smaller values |
| CriteriaProps.ParseTypesShape | lib/criteria.js:53-75 | with no `or` key, each field is rewritten on its own: a `datetime` field becomes a Date only when it parses (else it stays, uncoerced); otherwise "false"/"true"/"null" become literals, numbers stay, lists become `{$in: list}` and nested objects are parsed with the nested schema |
| CriteriaProps.ParseTypesOr | lib/criteria.js:66-68 | `{or: clauses}` (clauses not a number or literal string) becomes `{$or: clauses}`, the clauses not type-parsed |
| CriteriaProps.ParseTypesArray | lib/criteria.js:52-75 | an array keeps its length, and each element is rewritten under its position as a field would be: coerced literal, `$in` list, nested parse, date for a `datetime` position, else unchanged |
| CriteriaShapes.TypeStepKept | lib/criteria.js:53-74 | a key other than a renamed `or` is rewritten where it stands, the keys before and after it untouched |
| CriteriaShapes.TypeStepRenamed | lib/criteria.js:66-68 | a renamed `or` leaves its place and `$or`, holding the clauses, is appended after every other key |
| CriteriaShapes.ParseTypesMoves | lib/criteria.js:50-78 | on any object with distinct keys and no `$or`, the keys other than a renamed `or` keep their order and are parsed in place, and the renamed `or` reappears last as `$or` |
| CriteriaShapes.ParseTypesRenamed | lib/criteria.js:50-78 | `{...a, or: clauses, ...b}` becomes `{...a', ...b', $or: clauses}`, with `a'` and `b'` parsed field by field as without `or` |
| Criteria.SortDirection | lib/criteria.js:101-103 | `0` and `-1` give `-1`, anything else gives `1` |
| Criteria.RecursiveParse | lib/criteria.js:92-166 | the `for…in` loop that mutates and reassigns `obj` computes the normalised value |
| Criteria.VisitKey | lib/criteria.js:93-163 | one turn of the `for…in` loop: descend into an object value, then the sort, contains, like, startsWith, endsWith, comparison, negation and string rewrites in that order |
| Criteria.NormalizedValues | lib/criteria.js:168 | every top-level key keeps its place and has its value normalised |
| Criteria.NormalizeCriteria | lib/criteria.js:88-172 | the loop over the query's keys yields each value normalised in place |
| Criteria.RewriteValues | lib/criteria.js:32-49 | the `_.each` loop computes the operator/`$set` split |
| CriteriaProps.OperatorFieldsGet | lib/criteria.js:36-39 | exactly the `$` keys are copied to the top level, with their values |
| CriteriaProps.PlainFieldsGet | lib/criteria.js:36-41 | exactly the non-`$` keys are collected for `$set`, with their values |
| CriteriaProps.RewriteValuesKeeps | lib/criteria.js:36-48 | `$` keys keep their value at the top level; plain keys are absent there and present under `$set`; `$set` is added only when a plain key exists |
| CriteriaProps.SingleKey | lib/criteria.js:93-98 | a one-key object is rewritten after its value has been normalised, except that a Date is not descended into |
| CriteriaProps.NormalizeSort | lib/criteria.js:101-103 | `{sort: v}` becomes `{sort: -1}` or `{sort: 1}` by the normalised `v` |
| CriteriaProps.NormalizeContains | lib/criteria.js:105-108 | `{contains: v}` becomes the pattern `^.*E(v).*$` with flags `ig` |
| CriteriaProps.ContainsString | lib/criteria.js:105-108 | for a string `s`: the pattern text is `^.*` + escaped `s` + `.*$`, flags `ig` |
| CriteriaProps.NormalizeLike | lib/criteria.js:110-114 | `{like: v}` with a non-object `v` becomes `v` itself |
| CriteriaProps.LikeField | lib/criteria.js:110-161 | `{k: {like: s}}` under an ordinary key becomes `{k: /^E(s) with % as .*$/ig}` |
| CriteriaProps.NormalizeStartsWith | lib/criteria.js:116-120 | `{startsWith: v}` becomes the pattern `^E(v).*$` with flag `i` |
| CriteriaProps.StartsWithString | lib/criteria.js:116-120 | for a string `s`: pattern text `^` + escaped `s` + `.*$`, flag `i` |
| CriteriaProps.NormalizeEndsWith | lib/criteria.js:122-126 | `{endsWith: v}` becomes the pattern `^.*E(v)$` with flag `i` |
| CriteriaProps.EndsWithString | lib/criteria.js:122-126 | for a string `s`: pattern text `^.*` + escaped `s` + `$`, flag `i` |
| CriteriaProps.ComparisonMoves | lib/criteria.js:128-146 | each comparison alias moves its operand to its operator (`$lt`, `$lte`, `$gt`, `$gte`) |
| CriteriaProps.MoveSingle | lib/criteria.js:129-130 | moving the operand deletes the alias key: `{k: v}` becomes `{op: v}` |
| CriteriaProps.NormalizeComparison | lib/criteria.js:128-146 | `{lessThan/<, …: v}` becomes `{$lt/…: v'}` with `v'` the normalised operand |
| CriteriaProps.OperatorRenames | lib/criteria.js:128-146 | every comparison alias differs from the operator it becomes, so the move really deletes the alias |
| CriteriaProps.PatternStays | lib/criteria.js:128-161 | under a key other than a negation key, a value that has become a pattern is left alone by the comparison, negation and string rewrites |
| CriteriaProps.NormalizeNot | lib/criteria.js:148-152 | a key equal to `not` in any letter case, or `!`, yields `{$ne: v'}` |
| CriteriaProps.NegationNotOperator | lib/criteria.js:148 | a negation key is none of the other special keys, so only the negation applies |
| CriteriaProps.PlainObject | lib/criteria.js:154-161 | an object of ordinary keys is normalised key by key: strings under keys other than `id`/`_id` become `^E(v)$` patterns with `%` as `.*` and flags `ig`; strings under `id`/`_id` stay exact |
| CriteriaShapes.VisitPlain | lib/criteria.js:93-161 | visiting an ordinary key between other fields rewrites its value where it stands and touches no other field |
| CriteriaShapes.VisitAlias | lib/criteria.js:128-146 | visiting a comparison alias between other fields removes it and appends its operator with the normalised operand; no other field moves |
| CriteriaShapes.RangeVisit | lib/criteria.js:92-163 | each turn of the `for…in` loop over ordinary keys and aliases takes the object from the state before that key to the state after it |
| CriteriaShapes.RangeObject | lib/criteria.js:92-163 | an object of ordinary keys and comparison aliases (distinct keys, distinct operators): the ordinary keys keep their order and are rewritten as on their own; the aliases leave and their operators follow, in visiting order, with normalised operands |
| CriteriaShapes.Range | lib/criteria.js:128-146 | `{'>': a, '<': b}` becomes `{$gt: a', $lt: b'}` |
| Aggregate.KeyOf | lib/query/aggregate.js:91-97 | the group key maps exactly the `groupBy` fields to 1 |
| Aggregate.GroupKey | lib/query/aggregate.js:92-97 | the `forEach` loop builds exactly the group key of the `groupBy` fields |
| Aggregate.GroupOfSpec | lib/query/aggregate.js:91-110 | key present iff `groupBy` given; `initial` has 0 for sum and average fields and NaN for min/max fields; `count` is 0 for exactly the average fields; the `reduce` lists are exactly the `sum`, `min` and `max` directives |
| Aggregate.SeededSpec | lib/query/aggregate.js:106-107 | seeding sets each listed field to the seed and keeps the others |
| Aggregate.ZeroedSpec | lib/query/aggregate.js:103 | each average field gets a zero count; other counts are kept |
| Aggregate.Build | lib/query/aggregate.js:38-114 | no directive: no group; only `groupBy`: `InvalidGroupBy`; otherwise the group specification |
| Aggregate.SeedAll | lib/query/aggregate.js:101-108 | the loop seeds each field and appends it to the directive's list |
| Aggregate.SeedCounted | lib/query/aggregate.js:101-104 | the loop over the `average` fields seeds each with 0 and gives it a zero count |
| Aggregate.CountPhase | lib/query/aggregate.js:78-81 | every counted field gets the current value added and its count raised by one |
| Aggregate.Accumulator.constructor | lib/query/aggregate.js:59-61 | the accumulator starts from the group's `initial` record and lists |
| Aggregate.Accumulator.Reduce | lib/query/aggregate.js:62-82 | one `reduce` applies the sum, min, max and count steps to the record |
| Aggregate.Accumulator.Finalize | lib/query/aggregate.js:83-88 | `finalize` divides each counted field by its count and removes `count` |
| AggregateProps.SumAllField | lib/query/aggregate.js:63-65 | a sum field gets the current value added once per time it is listed |
| AggregateProps.MinAllField | lib/query/aggregate.js:66-71 | a min field takes the current value when it is smaller or the running value is NaN |
| AggregateProps.MaxAllField | lib/query/aggregate.js:72-77 | a max field takes the current value when it is larger or the running value is NaN |
| AggregateProps.MinWithTwice | lib/query/aggregate.js:68-70 | the min step is idempotent on the same value |
| AggregateProps.MaxWithTwice | lib/query/aggregate.js:74-76 | the max step is idempotent on the same value |
| AggregateProps.StepField | lib/query/aggregate.js:62-82 | one `reduce` changes each field by its role alone |
| AggregateProps.FoldCount | lib/query/aggregate.js:78-81 | after n documents every count has grown by n |
| AggregateProps.FoldSum | lib/query/aggregate.js:63-65 | after folding, a sum field holds its seed plus the sum over all documents, once per listing |
| AggregateProps.FoldMin | lib/query/aggregate.js:66-71 | after folding at least one document, a min field holds the minimum seen; with none it is NaN |
| AggregateProps.FoldMax | lib/query/aggregate.js:72-77 | after folding at least one document, a max field holds the maximum seen; with none it is NaN |
| AggregateProps.FoldCounted | lib/query/aggregate.js:78-81 | after folding, an average field holds its seed plus the sum over all documents |
| AggregateProps.FinalizedField | lib/query/aggregate.js:83-88 | `count` is gone; counted fields are divided by their count, others unchanged |
| AggregateProps.AverageSeed | lib/query/aggregate.js:100-104 | an average-only field starts at 0 with count 0 and is counted, not summed or compared |
| AggregateProps.SumSeed | lib/query/aggregate.js:100-108 | a sum-only field starts at 0 and is reduced by the sum step only |
| AggregateProps.MinSeed | lib/query/aggregate.js:100-108 | a min-only field starts at NaN and is reduced by the min step only |
| AggregateProps.MaxSeed | lib/query/aggregate.js:100-108 | a max-only field starts at NaN and is reduced by the max step only |
| AggregateProps.AverageField | lib/query/aggregate.js:78-88 | an average over n > 0 documents is their sum divided by n; over none it is NaN |
| AggregateProps.SumField | lib/query/aggregate.js:63-65 | built, folded and finalised, a sum field is the sum over all documents, times the number of times it is listed |
| AggregateProps.MinField | lib/query/aggregate.js:66-71 | built, folded and finalised, a min field is the minimum over the documents |
| AggregateProps.MaxField | lib/query/aggregate.js:72-77 | built, folded and finalised, a max field is the maximum over the documents |
| Connections.WithoutAutoIncrement | lib/connection.js:60-62 | `autoIncrement` is no longer truthy; every other property is unchanged |
| Connections.ProcessedAttribute | lib/connection.js:59-77 | after `processKey` an attribute has no truthy `autoIncrement`; `indexed` is true if it wanted an index and the store accepted it, and unchanged otherwise; all else is kept |
| Connections.ProcessKey | lib/connection.js:59-77 | `processKey` yields the processed attribute, an index request `{fieldName, sparse: true, unique}` exactly when `unique` or `index` is truthy, and the store's error for that request |
| Connections.ProcessKeys | lib/connection.js:79-86 | the loop over the definition's keys yields the processed definition, the index requests in key order and the first refused index |
| Connections.ProcessNextKey | lib/connection.js:59-82 | each turn processes the next key in place, adds its index request after the earlier ones and keeps the first refusal |
| Connections.ProcessedDefinitionFields | lib/connection.js:57-86 | the processed definition has the same keys, and each key holds its processed attribute |
| Connections.IndexRequestsExactly | lib/connection.js:64-74 | exactly the attributes that want an index are asked to be indexed |
| Connections.FirstIndexErrorExactly | lib/connection.js:69-83 | the load fails exactly when some requested index is refused, with the error of one of them |
| Connections.Described | lib/connection.js:91-97 | `null` unless the collection map, the collection and its schema are all non-empty; otherwise the schema |
| Connections.Loaded | lib/connection.js:43-89 | an existing store: nothing happens and there is no reply. Otherwise a store is created even when loading fails. Success happens exactly when the load and every index succeed; then one index request per attribute that asks for an index has been sent, in key order, the collection's definition and cached schema are both the processed definition, and that definition is returned. On failure, what `describe` reports is unchanged |
| Connections.LoadTwice | lib/connection.js:47 | once a load has created the store, loading again is a silent no-op |
| Connections.Registered | lib/connection.js:38-41 | with no collection map, a TypeError and nothing changes; otherwise the collection is stored under its identity and the result is exactly that of loading it with the updated map |
| Connections.RegisterIndexRefused | lib/connection.js:38-89 | a new collection whose index is refused: the refusal is the reply, the store and the processed definition stay registered, and `describe` reports `null` |
| Connections.RegisterThenDescribe | lib/connection.js:38-97 | a new collection whose indexes are all accepted is described by its processed definition, or `null` when that definition is empty |
| Connections.Dropped | lib/connection.js:103-121 | unset `dbs`: success, nothing changes; no store for the collection: TypeError; after a successful remove the collection leaves both maps; a failed remove changes nothing |
| Connections.DropTwice | lib/connection.js:105-107 | dropping the same collection again throws, since its store is gone while `dbs` stays set |
| Connections.DropThenLoad | lib/connection.js:113-114 | after a drop the collection is described as `null` and its next load is not skipped |
| Connections.WithoutIds | lib/connection.js:232-233 | the record has no `id` and no `_id`; every other property is unchanged |
| Connections.WithoutTruthyIds | lib/connection.js:271-272 | no truthy `id`/`_id` is left; a falsy one stays; every other property is unchanged |
| Connections.IdFromStore | lib/connection.js:238-239 | the stored record's `_id` becomes `id`, whether or not it is truthy, and `_id` is removed |
| Connections.Inserted | lib/connection.js:229-242 | nothing sent to the store carries `id`/`_id`; success exactly when the store exists, the record is not null or undefined and the store succeeds; the reply has `_id` moved to `id` |
| Connections.InsertedEach | lib/connection.js:244-257 | when the store exists and no record is null or undefined, exactly one `insert` of all records, in order, is sent; every record is sent without `id`/`_id`, other properties kept; success exactly when the store exists, no record is null or undefined and the store succeeds; the reply goes through `rewriteIds` |
| Connections.IdsOf | lib/connection.js:284-286 | the snapshot is each record's `_id`, in order |
| Connections.CollectIds | lib/connection.js:282-286 | the `forEach` loop collects exactly the snapshot |
| Connections.Updated | lib/connection.js:259-307 | a query that cannot be built is reported first; null values or a missing store: TypeError; a failed find, update or second find: that store error; NotFound exactly when the first find yields no list; success exactly when every step succeeds, and then the requests are the find, the multi-update of `{$set: values}` minus truthy ids on the same filter, and a find of `{_id: {$in: snapshot}}`, with the reply through `rewriteIds` |
| Connections.Connection.constructor | lib/connection.js:14-26 | a new connection has neither map set |
| Connections.Connection.Open | lib/connection.js:25-26 | `collections` becomes the given map (or `{}`), `dbs` becomes `{}` |
| Connections.Connection.LoadDB | lib/connection.js:43-89 | the new state, store calls and reply are those of `Loaded` |
| Connections.Connection.RegisterCollection | lib/connection.js:38-41 | the new state, store calls and reply are those of `Registered` |
| Connections.Connection.Describe | lib/connection.js:91-97 | replies with `Described` of the current maps |
| Connections.Connection.CreateCollection | lib/connection.js:99-101 | always succeeds and changes nothing |
| Connections.Connection.DropCollection | lib/connection.js:103-121 | the new state, store calls and reply are those of `Dropped` |
| Connections.Connection.Insert | lib/connection.js:229-242 | store calls and reply are those of `Inserted` |
| Connections.Connection.InsertEach | lib/connection.js:244-257 | the `_.each` loop gives the store calls and reply of `InsertedEach` |
| Connections.Connection.Update | lib/connection.js:259-307 | store calls and reply are those of `Updated` |
| Registry.Admitted | index.js:22-23 | a missing or empty identity gives IdentityMissing; a registered one gives IdentityDuplicate; otherwise it is admitted |
| Registry.TornDown | index.js:56-68 | a callback or no name empties the registry; a name removes that entry only, every other entry kept |
| Registry.TeardownUnknown | index.js:65 | tearing down an unregistered name changes nothing |
| Registry.TeardownTwice | lib/adapter.js:38-40 | a second teardown of the same target changes nothing |
| Registry.RegisterThenTeardown | index.js:20-68 | registering an identity and tearing it down restores the registry |
| Registry.RegisterAgain | index.js:23 | a registered identity is refused until torn down, and admitted again afterwards |
| IndexAdapter.Adapter.constructor | index.js:8 | the registry starts empty |
| IndexAdapter.Adapter.RegisterConnection | index.js:20-31 | refusals and a throwing constructor leave the registry unchanged; otherwise exactly the new identity is added, with a fresh connection |
| IndexAdapter.Adapter.Teardown | index.js:56-68 | the registry becomes `TornDown` of the old one; always succeeds |
| IndexAdapter.Adapter.GrabConnection | index.js:506-508 | the connection stored under the name, or none |
| IndexAdapter.Adapter.Describe | index.js:70-72 | forwards to the named connection's `describe`; an unknown name is a TypeError |
| IndexAdapter.Adapter.Define | index.js:74-76 | succeeds exactly for a registered name |
| IndexAdapter.Adapter.Drop | index.js:78-80 | forwards to the named connection's `dropCollection` |
| IndexAdapter.Adapter.Create | index.js:86-88 | forwards to the named connection's `insert` |
| IndexAdapter.Adapter.Update | index.js:90-92 | forwards to the named connection's `update` |
| LibAdapter.Adapter.constructor | lib/adapter.js:8 | the registry starts empty |
| LibAdapter.Adapter.RegisterConnection | lib/adapter.js:20-27 | refusals leave the registry unchanged; otherwise the identity is added before initialisation, and stays whatever the initialisation reports |
| LibAdapter.Adapter.Teardown | lib/adapter.js:29-41 | the registry becomes `TornDown` of the old one; always succeeds |
| LibAdapter.Adapter.GrabConnection | lib/adapter.js:83-85 | the connection stored under the name, or none |
| LibAdapter.Adapter.Describe | lib/adapter.js:43-45 | forwards to the named connection's `describe`; an unknown name is a TypeError |
| LibAdapter.Adapter.Define | lib/adapter.js:47-49 | succeeds exactly for a registered name |
| LibAdapter.Adapter.Drop | lib/adapter.js:51-53 | forwards to the named connection's `dropCollection` |
| LibAdapter.Adapter.Create | lib/adapter.js:59-61 | forwards to the named connection's `insert` |
| LibAdapter.Adapter.CreateEach | lib/adapter.js:63-65 | forwards to the named connection's `insertEach` |
| LibAdapter.Adapter.Update | lib/adapter.js:67-69 | forwards to the named connection's `update` |

## Left out

- The nedb store, including loading, `ensureIndex`, `insert`, `find`, `update` and `remove`. Also left out: `mkdirp`, `fs.unlink` and `path.join`. They are foreign I/O: each call is recorded as a request and its reply is a parameter. Store file paths are not modelled.
- Overlapping calls. Each entry point runs to completion, store replies included, before the next one starts.
- Connections.Dropped: `dropCollection` assigns `db` without `var` (lib/connection.js:106), so `db` is a shared global. Two drops whose store replies overlap can unlink the wrong store's file. The model runs one drop at a time and cannot show this.
- `async.each` scheduling. The keys of a definition are processed one after another. The reported error is the first refused index in key order, not the first reply to arrive.
- `Date.parse`/`new Date` and the text form of dates, patterns and object ids. These are parameters (`Env`, `idText`).
- Regular-expression construction and matching. A pattern is kept as its text and flags, and an invalid pattern does not throw.
- IEEE arithmetic. Criteria numbers are integers. Aggregation values are reals with NaN and `undefined`; there is no rounding or Infinity.
- Aggregate.Div: a value divided by a zero count is NaN, where JavaScript gives ±Infinity for a non-zero finite value. Through `build`, `reduce` and `finalize` this cannot happen: a count is zero only when no document was reduced, and then the field holds its seed, 0 or NaN, which JavaScript also divides to NaN.
- JavaScript's ordering of integer-like object keys before other keys. Keys are kept in insertion order.
- Properties of arrays, dates and regular expressions other than array positions. Non-ASCII case folding in `toLowerCase`.
- Prototype-inherited names, such as `constructor`, used as connection identities or collection names.
- `select`, `destroy` and the `find`/`destroy` entry points that forward to them. Both depend on the query module, which is not part of this model.
- `init`: creating the connection's directory and registering the given collections asynchronously. Its effect on the two maps is `Connection.Open`. Also left out: `initConn`, whose outcome is a parameter, and the commented-out code of `index.js`.
- Aliasing of the caller's objects. The criteria, `insert` data and `update` values are mutated in place by the source. The model returns the new values instead. The one exception: attribute objects shared between a definition and its schema are updated in both.
- Aggregate directives are the lists among `groupBy`/`sum`/`average`/`min`/`max`. Seeding order is sum, average, min, max, whatever the lodash version's `pick` does. A field literally named `count` is not modelled.
- Criteria.Normalized: a `like` operand that is `null` or `undefined` makes the source throw when the string check reads a property of it (lib/criteria.js:156). The model yields the operand.
- Connections.ProcessedAttribute: an attribute that is `null` or `undefined` makes `processKey` throw. The model treats it as an attribute without properties.
- Utils.RewriteId: a `null` or `undefined` record makes `rewriteIds` throw when `model._id` is read (lib/utils.js:33). The model returns it unchanged. The store's replies never contain such a record.
- CriteriaProps.NormalizeLike: its operand may be `null` or `undefined`, on which the source throws (lib/criteria.js:156); see `Criteria.Normalized` above.
- Connections.Inserted: a store reply that is `null` would throw when its `_id` is read. The model returns it unchanged.
- IndexAdapter.Adapter.RegisterConnection: if the callback itself throws, the source calls it a second time. Only one reply is modelled.
- LibAdapter.Adapter.RegisterConnection: the connection constructor is assumed not to throw.
- IndexAdapter.Adapter.RegisterConnection: a `null` or `undefined` connection object throws when its `identity` is read (index.js:22). The model takes the identity as an optional string and cannot express that.
- LibAdapter.Adapter.RegisterConnection: the same holds for a `null` or `undefined` connection object (lib/adapter.js:22).
- Connections.Updated: the filter is a parameter that stands for `new Query(criteria).criteria.where` (lib/connection.js:264-277), since the query module is not part of this model.
- Criteria.TypesParsed: lodash's `_.each` walks an object that has a non-negative integer `length` property by position, as if it were an array. The model walks every object by its own keys.
- Criteria.RewriteValues: the same holds for update values that have such a `length` property.
