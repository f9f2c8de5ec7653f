# ignitor-activerecord in Dafny

This project models the core of `ignitor-activerecord`, a small active-record ORM for
CodeIgniter 4. The model covers the layer between the application and the database
connection. The connection itself is an abstract collaborator (`Sql.Connection`). It
supplies an `escape` oracle, a `fieldExists(column, table)` oracle, an `insertId` answer
and a `rows(query)` answer. Every builder call appends to a clause log, and that log is
what the proofs talk about.

Modules, one per file:

- `Values` (values.dfy): attribute values (null, integers, strings, lists), PHP's
  `is_numeric` and truthiness over them, and the error kinds the ORM raises.
- `Str` (str.dfy): `Str::camelize`, `Str::snakeCase`, class base names, last
  `.`-segments, and split/join.
- `Inflect` (inflect.dfy): `Inflect::pluralize` and `Inflect::singularize` as ordered
  first-match tables of suffix rules over ASCII words, matched case-insensitively.
- `Collections` (collection.dfy): `Collection`, an ordered keyed container with
  ArrayAccess semantics. It is a class over a sequence of key/value entries.
- `Sql` (sql.dfy): `processValue` and `processKey`, and the `"key op value"` condition
  text.
- `Records` (records.dfy): the `Model` class with its attribute store and dirty tracker.
  It holds `attributes`, `original`, `relations`, `bootable` and the `exists` flag
  (`stored` here). The module also has the naming conventions: table name,
  `joinTables`, `getMergeStrings`.
- `Queries` (query.dfy): the `Builder` class. It appends where/in/null/limit/join
  clauses, selects the soft-delete mode, handles `create`/`update`, and normalises the
  `with` request.
- `Saving` (save.dfy): `save`, `performInsert` and `performUpdate`, proved equal to pure
  outcome functions.
- `Relations` (relations.dfy): the relation descriptors `HasOne`, `HasMany`,
  `BelongsTo`, `BelongsToMany`, `MorphOne`, `MorphMany` and `MorphTo`. A `Kind`
  datatype is paired with a `Relation` class. The class constructor adds the kind's
  base conditions to its builder exactly once. The module also has save-back, `getKeys`
  and the relation factories of `Model`.
- `Eager` (eager.dfy): the terminal reads `get`, `first`, `firstOrFail`, `find` and
  `firstOrNew`, plus `makeModels`, `newFromQuery` and the eager-load planner
  (`invokeBootable`, `processBootableMethod`, `processBootableClosure`,
  `processNestedWith`). Hydration is specified by a fold, `Hydrate`, over the request
  entries. `NewFromQuery` is proved against it.

The relation methods a model class declares form an explicit registry,
`ModelClass.methods`: relation name to relation descriptor, or to a plain method with its
value. Namespace resolution is a function in `Relations.Schema`.

Where the repository's own description and its code disagree, the model follows the code:

- `getKeys` applies `array_unique` after `array_values`. Its result keeps the original
  positions as keys and is not reindexed.
- `newFromQuery` writes the `pagination`/`paginator` entries with `setAttribute`. Those
  keys are therefore dirty after hydration (`Eager.HydratedClean`).
- `whereNull`/`whereNotNull` call `where` with a null value. That leaves two trailing
  spaces in the clause.
- `join` without a value passes the key as the whole condition and drops the join type.
- `MorphOne::save` first writes the parent's primary key into the id column. The
  delegated `HasOne::save` then overwrites it with `parent[localKey]`.
- The list form of `find` adds the soft-delete filter twice: once in `find`, once in
  `get`.

## Model

| member | source | states |
|---|---|---|
| Records.Model.constructor | src/Model.php:63-72 | a new model has no attributes, no original, no relations, no bootable entries and is not stored |
| Records.Model.SyncAttributes | src/Model.php:74-78 | original becomes the attributes and the model is clean afterwards (no dirty key) |
| Records.Model.SetAttribute | src/Model.php:322-326 | only attribute `k` changes, to `v`; original, relations, bootable and stored are unchanged |
| Records.TableOf | src/Model.php:383-394 | definition: the configured table, else the plural of the snake-cased class base name |
| Records.JoinTables | src/Model.php:1096-1109 | definition: the two lower-cased base names, sorted, joined by `_` |
| Records.Model.SetRawAttributes | src/Model.php:369-376 | attributes are replaced; with sync, original is too and the model is clean |
| Records.Model.AttributeOrNull | src/Model.php:649-652 | the attribute's value, or null when the key is absent |
| Records.DirtyOf | src/Model.php:765-780 | a key is dirty iff it is an attribute, not a bootable key, and absent from original or changed and not numerically equivalent; its value is the current one |
| Records.CleanAfterSync | src/Model.php:74-78 | with original equal to the attributes, nothing is dirty |
| Records.DirtyKeys | src/Model.php:769-772 | a bootable key is never dirty; a non-bootable key absent from original is dirty with its current value |
| Records.NumericComparison | src/Model.php:789-796 | `3` against `"3"` is clean; `"3.0"` against `"3"` is dirty |
| Records.Model.GetDirty | src/Model.php:765-780 | the loop builds exactly the dirty map |
| Records.Model.IsDirty | src/Model.php:737-756 | with no keys: true iff something is dirty; with keys: true iff some listed key is dirty |
| Records.FilledKeys | src/Model.php:100-116 | with an allow-list, an unlisted key keeps its old presence and value; an allowed input key ends with its input value |
| Records.Filled | src/Model.php:100-116 | definition: the attributes after assigning each input entry in order, skipping keys outside a nonempty allow-list |
| Records.Model.FillModelWithSingle | src/Model.php:100-116 | with an allow-list or without protection, assigns the allowed entries in order; with an empty allow-list and protection, fails with a mass-assignment error iff the input is nonempty and assigns nothing |
| Records.Visible | src/Model.php:276-287 | the output holds exactly the input entries whose key is not hidden |
| Records.Model.RemoveHiddenFields | src/Model.php:276-287 | the loop returns exactly the visible entries |
| Records.StampKeepsDirty | src/Model.php:661-672 | stamping keeps every dirty key dirty with its value and changes only the two timestamp columns |
| Records.Model.SetTimestamps | src/Model.php:661-672 | attributes become the stamped attributes; nothing else changes |
| Records.JoinTablesSymmetric | src/Model.php:1096-1109 | the pivot name is the same whichever side asks, and is the two lower-cased base names sorted and joined with `_` |
| Records.MergeStrings | src/Model.php:1172-1181 | a missing or falsy (`""`, `"0"`) type/id column name defaults to `name_type`/`name_id`; a truthy given one is kept |
| Records.DefaultTable | src/Model.php:383-394 | without a declared table, a class `N\Word` with a PascalCase base name is stored in the plural of its snake form: first letter lower-cased, `_` before every later capital (`UserLog` gives `user_logs`) |
| Records.NewInstance | src/Model.php:487-491 | `new static($attributes)` with the exists flag: fails with a mass-assignment error iff attributes are given to a protected class without an allow-list; otherwise a fresh model holding exactly the filled attributes, an empty original and the given flag |
| Saving.KeptOptions | src/Model.php:585-597 | an option survives iff its key is not among the attribute values |
| Saving.OverlayLookup | src/Model.php:534-536 | an overlaid key takes the option's value; any other key keeps its attribute |
| Saving.OptionFilter | src/Model.php:589-591 | for every key: when the key is among the attribute values the saved map is the attributes there; otherwise an option under that key overrides the attribute, and a key in neither is absent |
| Saving.KeptAt | src/Model.php:589-591 | a key among the attribute values is under no kept option; any other key is in the kept options' overlay iff it is in the options' overlay, with the same value |
| Saving.CleanUpdateWritesNothing | src/Model.php:607-626 | updating a clean model returns false and sends nothing |
| Saving.DirtyUpdateWrites | src/Model.php:607-640 | updating a dirty model returns true, sends `pk = value`, then the update of exactly the dirty map, which keeps every change |
| Saving.InsertStoresKey | src/Model.php:522-546 | a successful insert marks the model stored and writes the truthy insert id into the primary key; a failed one leaves stored as it was |
| Saving.EmptyInsertRefused | src/Model.php:522-546 | inserting no attributes (without timestamps) fails with a model error and sends nothing |
| Saving.InsertKeepsOtherKeys | src/Model.php:522-546 | an insert changes no attribute other than the primary key and timestamps |
| Saving.UpdateKeepsOtherKeys | src/Model.php:607-626 | an update changes no attribute other than the primary key and timestamps |
| Saving.PerformInsert | src/Model.php:522-546 | the result, new attributes, stored flag and sent clauses are the insert outcome |
| Saving.PerformUpdate | src/Model.php:607-626 | the result, new attributes, stored flag and sent clauses are the update outcome |
| Saving.WriteChanges | src/Model.php:614-626 | the dirty-path half of the update outcome |
| Saving.KeyedUpdate | src/Model.php:635-640 | a clean model is refused after the key constraint; a dirty one is updated with exactly its dirty map under `pk = value` |
| Saving.Save | src/Model.php:501-512 | a stored model takes the update outcome, any other the insert outcome |
| Saving.InsertOutcome | src/Model.php:522-546 | definition: timestamps when enabled, options whose keys are not attribute values merged in; no payload is a model error; no insert id a database error; otherwise stored, with a truthy id as primary key |
| Saving.UpdateOutcome | src/Model.php:607-626 | definition: options merged in; nothing dirty gives false and sends nothing; otherwise `WriteOutcome` |
| Saving.WriteOutcome | src/Model.php:614-640 | definition: timestamps when enabled, `pk = value` from setKeysForSaveQuery, then the update of the dirty map under the key again; nothing dirty after stamping is a model error |
| Sql.ProcessValue | src/Query/Builder.php:140-163 | strings are escaped iff escaping is on; numbers and null are unchanged; lists become parenthesised text |
| Sql.IntListText | src/Query/Builder.php:154-160 | `[0]` becomes `(0)` and the empty list `()` |
| Sql.ProcessKey | src/Query/Builder.php:185-205 | a key without `.` has no table; otherwise table and column hold no `.` |
| Sql.ProcessKeyQualified | src/Query/Builder.php:185-205 | `t.f` splits into column `f` and table `t` |
| Queries.NormalisedKeepsEntries | src/Query/Builder.php:642-660 | `with` keeps every entry in order; a string under a numeric key is keyed by itself, every other key is kept |
| Queries.Normalised | src/Query/Builder.php:642-660 | definition: the request entries put in order into an ordered map, a string under a numeric key filed under itself |
| Queries.WithNamesItself | src/Query/Builder.php:642-660 | `with(['name'])` becomes `['name' => 'name']` |
| Queries.InValues | src/Query/Builder.php:251-267 | the empty list becomes `[0]`; any other value is unchanged |
| Queries.EmptyInCondition | src/Query/Builder.php:251-267 | an empty `IN` list gives `key IN (0)` |
| Queries.ConditionForms | src/Query/Builder.php:219-249 | a condition is `key op value`, with the value escaped iff escaping is on |
| Queries.TrashedFilter | src/Query/Builder.php:389-401 | no delete column or withTrashed: no clause; onlyTrashed: `IS NOT NULL`; otherwise `IS NULL` |
| Queries.Builder.constructor | src/Query/Builder.php:39-48 | an empty clause log on the model's table, escaping on, no trash modes, no eager request |
| Queries.Builder.Where | src/Query/Builder.php:219-249 | appends exactly one clause `key op value`; settings unchanged |
| Queries.Builder.WhereEquals | src/Query/Builder.php:219-249 | the two-argument form appends `key = value`; a list value, which the `$operator` parameter's type refuses, is a type error and appends nothing |
| Queries.Builder.WhereRaw | src/Query/Builder.php:219-249 | the one-argument form appends the condition with null operator and value |
| Queries.Builder.WhereIn | src/Query/Builder.php:251-258 | an integer or null is a type error and appends nothing, since the parameter admits a string, an array or a closure; a string or a list appends `key IN (values)`, with `(0)` for an empty list |
| Queries.Builder.WhereNotIn | src/Query/Builder.php:260-267 | an integer or null is a type error and appends nothing; a string or a list appends `key NOT IN (values)`, with `(0)` for an empty list |
| Queries.Builder.WhereNull | src/Query/Builder.php:269-272 | appends `key IS NULL` |
| Queries.Builder.WhereNotNull | src/Query/Builder.php:274-277 | appends `key IS NOT NULL` |
| Queries.Builder.Limit | src/Query/Builder.php:279-284 | appends one limit clause |
| Queries.Builder.Skip | src/Query/Builder.php:286-301 | appends one offset clause; `offset` is an alias |
| Queries.Builder.Take | src/Query/Builder.php:293-296 | appends a limit without offset |
| Queries.Builder.Select | src/Query/Builder.php:494-504 | appends the column selection |
| Queries.Builder.Join | src/Query/Builder.php:303-316 | with a truthy value the condition is `key op value` with the given type; otherwise the key alone with the default type |
| Queries.Builder.LeftJoin | src/Query/Builder.php:468-471 | a join of type left, under the same rules |
| Queries.Builder.RightJoin | src/Query/Builder.php:484-487 | a join of type right, under the same rules |
| Queries.Builder.Deletable | src/Query/Builder.php:389-401 | appends exactly the soft-delete filter for the current mode |
| Queries.Builder.WithTrashed | src/Query/Builder.php:410-414 | sets withTrashed; clauses unchanged |
| Queries.Builder.OnlyTrashed | src/Query/Builder.php:423-427 | sets onlyTrashed; clauses unchanged |
| Queries.Builder.SubQuery | src/Query/Builder.php:176-182 | switches escaping off for every later clause |
| Queries.Builder.Create | src/Query/Builder.php:92-114 | empty data: model error, no insert; no insert id: database error; a truthy id is written to the model's primary key |
| Queries.Builder.Update | src/Query/Builder.php:129-138 | empty data: model error, nothing sent; otherwise constrained to `pk = value` and updated with the data |
| Queries.Builder.With | src/Query/Builder.php:642-660 | the builder's request and the model's bootable both become the normalised request |
| Relations.OnlyHasOneLimits | src/Relations/HasOne.php:26-29 | a kind's base conditions contain a limit iff it is HasOne |
| Relations.PivotKeysQualified | src/Relations/BelongsToMany.php:46-66 | both pivot keys are `pivot.key`, and their plain segment is the key |
| Relations.PivotJoinFirst | src/Relations/BelongsToMany.php:28-61 | the join to the pivot comes first, then the select, then `pivot.fk = parent pk` |
| Relations.MorphToIsBelongsTo | src/Relations/MorphTo.php:13-16 | MorphTo adds exactly BelongsTo's condition; the type column plays no part |
| Relations.MorphTag | src/Relations/MorphOne.php:19-29 | a parent `ns\Post` is queried with type tag `post` |
| Relations.SaveBackValues | src/Relations/MorphOne.php:31-40 | the foreign key or id column ends with `parent[otherKey]`/`parent[localKey]`; MorphOne writes the class base name as is, MorphMany lower-cased |
| Relations.SavedCarriesBack | src/Relations/HasMany.php:47-52 | after saving, the related model carries the parent's key values in its plain columns |
| Relations.KeyValues | src/Relations/Relation.php:52-56 | one value per model: the attribute for a key, the primary-key column name without one |
| Relations.Unique | src/Relations/Relation.php:52-56 | entries keep their original positions as keys, in increasing order, with the values found there |
| Relations.UniqueKeeps | src/Relations/Relation.php:52-56 | a position survives iff no earlier value has the same string form |
| Relations.UniqueCovers | src/Relations/Relation.php:52-56 | every value's string form is kept, and no two kept values share one |
| Relations.Relation.constructor | src/Relations/Relation.php:17-24 | the query gains exactly the kind's base conditions, once; settings unchanged |
| Relations.Relation.AddConditions | src/Relations/HasOne.php:26-29 | appends the kind's base conditions (HasOne, HasMany, BelongsTo, BelongsToMany, MorphOne, MorphMany, MorphTo) |
| Relations.Relation.Where | src/Relations/Relation.php:31-40 | a where on the relation is forwarded to its query |
| Relations.Relation.Save | src/Relations/HasOne.php:36-41 | writes the save-back columns, then saves; the outcome is the saved outcome and the model carries the parent's keys |
| Relations.Relation.SaveMany | src/Relations/HasMany.php:60-67 | saves the models in order and returns the input iff every save succeeds; each saved model has its save outcome and carries the parent's keys; the first failing save ends the call with its error and its outcome, and later models are untouched |
| Relations.Relation.SaveOne | src/Relations/HasMany.php:62-64 | one save of the loop: on success the model has the save outcome and carries the parent's keys; on failure the outcome's error and state |
| Relations.Relation.AddLazyConditions | src/Relations/HasMany.php:94-97 | appends `plain fk IN (distinct parent key values)` |
| Relations.KindOf | src/Model.php:1002-1226 | definition: the target class and descriptor of each relation factory: an unknown class is an error; hasOne/hasMany qualify the foreign key by the target table and default the other key to the parent's primary key; belongsTo defaults to `<relation>_id`; belongsToMany needs both keys and defaults the pivot to `joinTables`; the morph kinds take `getMergeStrings`' columns; morphTo reads the class from the type column |
| Relations.BaseConditions | src/Relations/HasOne.php:26-29 | definition: the clauses each kind adds at construction: `fk = parent[ok]` (and limit one for HasOne), `child.ok = parent[fk]` for BelongsTo and MorphTo, the pivot join, select and key condition for BelongsToMany, and the type tag and id conditions for MorphOne and MorphMany |
| Relations.SaveBack | src/Relations/MorphMany.php:30-37 | definition: the writes save makes on the related model: the plain foreign key for HasOne/HasMany; the type tag and the id column twice for the morph kinds |
| Relations.BelongsToDefaults | src/Model.php:1039-1057 | belongsTo defaults the foreign key to `relation_id` and the other key to the target's primary key |
| Relations.HasForeignKey | src/Model.php:1002-1027 | hasOne/hasMany qualify a given foreign key with the target table, its plain form is the key as given, and the other key defaults to the parent's primary key |
| Relations.MorphColumns | src/Model.php:1122-1161 | morphOne/morphMany default their columns to `table.name_type`/`table.name_id`, whose plain forms are `name_type`/`name_id` |
| Relations.MorphToTarget | src/Model.php:1204-1226 | morphTo reads the target class from `name_type`; a non-string type is a type error |
| Relations.Relate | src/Model.php:1002-1226 | a relation factory succeeds iff the kind resolves; the new relation's query is fresh, on the target's table, and holds only the base conditions |
| Eager.DottedName | src/Model.php:942-991 | `head.rest` is nested under `head`, its first segment is `head`, and `rest` is what is passed on |
| Eager.PlainNameNotNested | src/Model.php:986-991 | a name without `.` is never nested |
| Eager.RelationShapes | src/Relations/HasOne.php:54-57 | HasOne, BelongsTo, MorphOne and MorphTo load one model (or none); the other kinds load a collection |
| Eager.AttributeLookup | src/Model.php:335-359 | an attribute wins, then a loaded relation; with neither, no camel-cased method gives null, a plain method is a logic error, and a relation method's result is returned and stored under the key (or its error returned) |
| Eager.BootName | src/Model.php:845-847 | a numeric key is named by its string value; any other key names itself |
| Eager.NumericKeyNamedByValue | src/Model.php:845-847 | any integer key with a string entry is named by that string |
| Eager.Place | src/Model.php:862-869 | a model or collection goes to relations; anything else to the attribute and the bootable map |
| Eager.HydrateFailureSticks | src/Model.php:812-820 | once an entry fails, hydration of the rest fails with the same error |
| Eager.HydratedClean | src/Model.php:806-823 | after hydration only the `pagination`/`paginator` keys can be dirty |
| Eager.PutKeys | src/Model.php:868 | writing a bootable entry adds its name to the bootable keys |
| Eager.GetResults | src/Relations/BelongsTo.php:36-39 | a single-shaped relation runs first (none when no row), a many-shaped one runs get |
| Eager.LoadRelation | src/Model.php:881-909 | loading a relation method gives the relation result with the nested request |
| Eager.GetAttribute | src/Model.php:335-348 | the result is the attribute lookup and only the relations may change |
| Eager.InvokeBootable | src/Model.php:837-870 | the model's new state is one step of the hydration fold |
| Eager.ResolveEntry | src/Model.php:881-977 | resolving a method name agrees with the resolution function, including the nested case |
| Eager.File | src/Model.php:862-869 | the model's new state is the placed state |
| Eager.NewFromQuery | src/Model.php:806-823 | succeeds iff hydration does; the new model is fresh, stored, has the row as original and the hydrated state |
| Eager.Hydrate | src/Model.php:806-823 | definition: the row as attributes, then each request entry applied in order by `Step`; the first failing entry's error ends it |
| Eager.Step | src/Model.php:814-819 | definition: a `pagination`/`paginator` entry is set as an attribute; any other entry is resolved and filed by `Place` |
| Eager.ApplyEntry | src/Model.php:814-819 | the model's new state is `Step` of its old state, and the error is `Step`'s error |
| Eager.Resolve | src/Model.php:837-860 | definition: the entry's name (`BootName`); a closure's null falls back to getAttribute, a query gives a collection, a value itself; a string goes through `ResolveMethod`; a list is kept; any other literal is a type error |
| Eager.ResolveMethod | src/Model.php:881-977 | definition: a plain name gives the relation's result, the method's value or the string itself; a nested name loads the relation named by its first segment with the rest as its request, filed under that segment, and null without such a method |
| Eager.RelationResult | src/Model.php:888-895 | definition: the relation the method builds (`KindOf`); its base conditions and the soft-delete filter; first() for one-model kinds (no model without a row), get() for the others |
| Eager.HydrateAll | src/Query/Builder.php:538-546 | succeeds iff every row hydrates, with one state per row |
| Eager.HydrateAllFirstError | src/Query/Builder.php:538-546 | when the rows before row i hydrate and row i does not, hydrating all rows fails with row i's error |
| Eager.MakeModels | src/Query/Builder.php:538-546 | succeeds iff every row hydrates, with one fresh stored model per row in its hydrated state; otherwise the error is that of the first row that fails |
| Eager.Get | src/Query/Builder.php:494-536 | adds the soft-delete filter (and the selection when columns are given); succeeds iff every returned row hydrates, with one fresh stored model per row; otherwise the first failing row's error |
| Eager.First | src/Query/Builder.php:573-600 | adds the filter and a limit of one; no row gives none, otherwise the first row hydrated |
| Eager.FirstOrFail | src/Query/Builder.php:624-632 | no row is a not-found error; with a row it succeeds iff the row hydrates, and then gives a fresh stored model of the builder's class with the row as original and the hydrated state, else the hydration error |
| Eager.Find | src/Query/Builder.php:548-571 | null ids are a type error; a single id adds `pk = id` and limit one and gives the first row's hydrated model, or null (`NotFound`) without a row; a list adds `pk IN ids` and gives one model per row iff every row hydrates, else the first failing row's error |
| Eager.FindOne | src/Query/Builder.php:555-565 | constrained to `pk = id` and limit one; no row gives not found; a row gives a fresh model in the row's hydrated state, or the hydration error |
| Eager.FindMany | src/Query/Builder.php:566-569 | constrained to `pk IN ids`; succeeds iff every row hydrates, with one fresh stored model per row in that row's hydrated state; otherwise the first failing row's error |
| Eager.ScalarPrefix | src/Query/Builder.php:118-120 | the attributes before the first list value: none of them is a list, and the next one is |
| Eager.WhereAll | src/Query/Builder.php:118-120 | one `key = value` condition per attribute in order; a list value is a type error after the conditions of the attributes before it |
| Eager.FirstOrNew | src/Query/Builder.php:116-127 | one `=` condition per attribute, then the filter and a limit of one; a row gives first's result; no row gives a fresh unsaved model holding the filled attributes, or the mass-assignment error when the class refuses them; a list value is a type error |
| Collections.Lookup | src/Collection.php:52-55 | present iff some entry has the key; with distinct keys it is that entry's value |
| Collections.PutLookup | src/Collection.php:56-63 | after writing `k`, `k` gives the new value and every other key is unchanged |
| Collections.PutPresentKeepsOrder | src/Collection.php:61 | overwriting a present key keeps every position and every other entry |
| Collections.RemoveLookup | src/Collection.php:64-67 | after removing `k`, `k` is absent and every other key is unchanged |
| Collections.AppendIsPut | src/Collection.php:58-59 | appending at the next index is writing a fresh key at the end |
| Collections.Collection.constructor | src/Collection.php:20-23 | items are the values keyed 0..n-1 |
| Collections.Collection.All | src/Collection.php:25-28 | the items unchanged and in order |
| Collections.Collection.Count | src/Collection.php:37-40 | the number of items |
| Collections.Collection.IsEmpty | src/Collection.php:42-45 | true iff the count is zero |
| Collections.Collection.First | src/Collection.php:29-32 | none iff empty; otherwise the first item |
| Collections.Collection.Last | src/Collection.php:33-36 | none iff empty; otherwise the last item |
| Collections.Collection.OffsetExists | src/Collection.php:46-49 | true iff the key holds a non-null item |
| Collections.Collection.OffsetGet | src/Collection.php:52-55 | the item under the key, or null |
| Collections.Collection.OffsetSet | src/Collection.php:56-63 | a null offset appends at the next index; a key overwrites only that key |
| Collections.Collection.OffsetUnset | src/Collection.php:64-67 | removes only that key |
| Collections.ExistsIffGet | src/Collection.php:46-55 | offsetExists agrees with offsetGet being non-null |
| Str.Camelize | src/Support/Str.php:24-27 | the result has no `_` and no space |
| Str.CamelizeSnakeCase | src/Support/Str.php:24-42 | camelize undoes snakeCase on a camelCase word |
| Str.SnakeCaseNoUpper | src/Support/Str.php:36-42 | a string without capitals is unchanged |
| Str.SnakeCase | src/Support/Str.php:36-42 | the result is no shorter than the input and, once underscores are dropped from both, equals it up to case |
| Str.SnakeFromCaseOnly | src/Support/Str.php:36-42 | from any position, the scan emits output no shorter than its input and equal to it up to case once underscores are dropped |
| Str.SnakePascal | src/Support/Str.php:36-42 | a PascalCase word becomes its first letter lower-cased followed by `_` and the lower-cased letter for every later capital; snakeCase is then idempotent |
| Str.SnakeCamel | src/Support/Str.php:36-42 | inside a camelCase word every capital becomes `_` and its lower-case form |
| Str.ClassBaseNameQualified | src/Relations/MorphOne.php:19 | the base name of `ns\C` is `C` |
| Str.LastSegmentQualified | src/Relations/HasOne.php:43-47 | the plain column of `t.f` is `f` |
| Inflect.RewriteSkips | src/Support/Inflect.php:50-54 | rules that do not match are passed over |
| Inflect.RewriteFirstMatch | src/Support/Inflect.php:50-54 | the first matching rule alone decides the result |
| Inflect.RewriteNoMatch | src/Support/Inflect.php:95-101 | with no matching rule the word is unchanged |
| Inflect.RewriteSpec | src/Support/Inflect.php:95-101 | a rule table rewrites a word by its first matching rule, and leaves a word no rule matches unchanged |
| Inflect.Pluralize | src/Support/Inflect.php:25-57 | the word rewritten by the first plural rule that matches it (the last rule, `$`, matches every word) |
| Inflect.Singularize | src/Support/Inflect.php:66-102 | with the `analyses` rule corrected: the word rewritten by the first matching singular rule, or the word itself when none matches |
| Inflect.SingularizeAsWritten | src/Support/Inflect.php:66-102 | as written: the word rewritten by the first matching singular rule, or the word itself when none matches |
| Inflect.PluralizeQuiz | src/Support/Inflect.php:28 | a word ending in `quiz` gets `zes` |
| Inflect.PluralizeConsonantY | src/Support/Inflect.php:33 | a consonant then `y` becomes `ies` |
| Inflect.PluralizeCategory | src/Support/Inflect.php:33 | `category` becomes `categories` |
| Inflect.PluralizeEndsInS | src/Support/Inflect.php:46 | a word ending in `s` or `S` and caught by no earlier rule ends in `s`: unchanged when it ends in `s` |
| Inflect.PluralizeFallback | src/Support/Inflect.php:47 | a word caught by no earlier rule gets `s` |
| Inflect.QuizRoundTrip | src/Support/Inflect.php:28-69 | singularize undoes pluralize on words ending in `quiz`, under the rule table as written and the corrected one |
| Inflect.SingularizeAnalyses | src/Support/Inflect.php:89 | under the corrected rule, a word ending in `analyses` that no earlier rule catches loses `ses` for `sis` |
| Inflect.SingularizeAnalysesAsWritten | src/Support/Inflect.php:89 | under the rule as written, the same word gets the `a` of `analy` again before `sis`, in the case the word has there (`PSYCHOANALYSES` gives `PSYCHOANALYAsis`) |
| Inflect.SingularizeFallback | src/Support/Inflect.php:92 | a word ending in `s` and caught by no earlier rule loses the `s`, under both rule tables |
| Inflect.SingularizeNoMatch | src/Support/Inflect.php:95-101 | a word no rule matches is unchanged, under both rule tables |
| Inflect.SingularMissesY | src/Support/Inflect.php:68-92 | no singular rule of either table matches a word ending in `y` unless it starts with `oxen` |
| Inflect.SingularizeEndsInY | src/Support/Inflect.php:68-101 | a word ending in `y` that does not start with `oxen` is unchanged by either table |
| Inflect.PsychoanalysesAsWritten | src/Support/Inflect.php:89 | the rule as written turns `psychoanalyses` into `psychoanalyasis` |
| Inflect.PsychoanalysesCorrected | src/Support/Inflect.php:89 | the corrected rule gives `psychoanalysis` |
| Inflect.SameMisses | src/Support/Inflect.php:68-92 | a word that none of the first k corrected rules matches is matched by none of the first k rules as written: the two tables differ only in a replacement |

## Left out

- The database: query compilation, execution and result reading become the connection
  oracles `rows`, `insertId` and `fieldExists`. Raw queries (`setRawQuery`, `raw`),
  aggregates (`count`, `avg`, `max`, `min`, `sum`), `groupBy` and `orderBy`
  are not modelled. `offset` is `skip`, modelled as `Queries.Builder.Skip`.
- Closures are opaque. A where closure is modelled only by its effect, `SubQuery`:
  escaping goes off for later clauses. An eager-load closure is a parameter
  (`Eager.Env.closures`) that gives null, a query or a value. A closure cannot change the
  model it receives.
- Eager-loaded relations are not fetched and hydrated recursively. A loaded relation is
  kept as its query plus the nested request.
- `Relation::__call` forwards any builder method. Only the forwarded `where` is
  modelled (`Relations.Relation.Where`); the other forwards are the builder's own
  methods.
- `Relation::noConditions` only invokes its callback, so it has no behaviour of its own
  to model.
- `Relation::getLazy` is `get()` on the relation's query, which is `Eager.Get`.
- `Model::__call`/`__callStatic` (`findBy*`, `span*`) and `Builder::__call` are not
  modelled; they are name-based dispatch.
- `debug_backtrace` in `belongsTo`/`morphTo`: the caller's relation name is a parameter.
- Namespace resolution (`buildNamespace`, `returnAppropriateNamespace`, `FileLocator`)
  is a function parameter (`Schema.resolve`). `class_exists`/`method_exists` become the
  registry `ModelClass.methods`.
- `getForeignKey()` is undefined in the shown code, and the model's method forwarding
  answers null for it. hasOne/hasMany with no foreign key therefore get the empty key.
  belongsToMany hands that null to a string parameter, so with a missing or falsy pivot
  key it is a type error (`Relations.KindOf`).
- `$this->virtualRelations` is undefined. A nested request through a plain method is
  therefore modelled as a type error.
- `$this->related`, `getParentKey`, `setRelation` and `match*` are undefined. The morph
  `create`/`firstOrCreate` and HasMany's `bootRelation`/`match*` are therefore not
  modelled.
- JSON serialisation (`jsonSerialize`, `toJson`): only `removeHiddenFields` is modelled.
- The clock: the timestamp is a parameter of `Save`.
- Floats and exponent notation: `is_numeric` covers an optional sign, digits and an
  optional fraction. Values are null, integers, strings and lists.
- PHP key canonicalisation: a numeric string key is not turned into an integer key.
  `in_array` compares strictly in the model.
- PHP's numeric-aware string `sort` in `joinTables`: the model compares character
  codes.
- `__clone`, `__sleep`, `__wakeup` and `__destruct`: values are copied by value in
  Dafny.
- `PermanentDeleteTrait`: it delegates to a parent `delete` that is not part of this
  model.
- Eager.Step: a closure under a `pagination`/`paginator` key is modelled as a type error,
  because a closure is not an attribute value here.
- Relations.Relation.Save: requires the related model to be distinct from the parent.
  Saving a model onto itself is not modelled.
- Relations.Relation.SaveOne: requires the model to be distinct from the parent, as
  `Relations.Relation.Save` does. Saving a model onto itself is not modelled.
- Relations.Relation.SaveMany: requires the parent not to be among the models, for the
  same reason, and the models to be distinct objects. Saving one model twice in a call is
  not modelled.
- Records.Model.constructor: takes no options. The constructor with options, `new
  static($options)`, is `Records.NewInstance`, which fills the fresh model after
  construction.
- Records.DefaultTable: stated for PascalCase base names without adjacent capitals. Base
  names with acronyms (`SMS`, `CSS`) go through the same functions, but no lemma states
  their snake form.
- Eager.Get: an empty column list adds no select clause. The database builder's default
  `*` is not part of the clause log.
- Records.Model.AttributeOrNull: the parent's key values written by save-back and the
  primary-key value for the save query read the attribute only. `getAttribute`'s
  relation-method fallback is not taken there. The fallback loads relations, which lives
  in `Eager`, a module built on top of this one.
- Relations.ParentValue: reads the parent attribute only, for the same reason as
  `AttributeOrNull`.
- Relations.KeyValues: reads the attribute only, for the same reason. A key that names a
  relation method and no attribute gives null here, where `getAttribute` would load the
  relation.
- Relations.Unique: values are compared by their string form, like `array_unique`'s
  default. The keys are the original positions; the result is not reindexed.

## Findings

| source | as written | input that shows it | evidently intended | confidence | as-written member | corrected member |
|---|---|---|---|---|---|---|
| src/Support/Inflect.php:89 | the replacement `$1$2sis` appends group 2, the `a` of `(a)naly`, after group 1 | `psychoanalyses` becomes `psychoanalyasis` | `psychoanalysis` (replacement `$1sis`) | high, not executed | Inflect.PsychoanalysesAsWritten | Inflect.PsychoanalysesCorrected |
