# php-database in Dafny

php-database is a thin data-access layer over PDO with optional memcache caching. A
static `Database` class turns array-shaped parameters into parameterized SQL for
`select`, `insert`, `insertBatch`, `update` and `delete`, runs the statement through
the driver, serves and stores select results through memcache, counts the queries of
each kind, and turns driver exceptions into entries of a static `ErrorStack` instead of
letting them escape.

The model has five modules:

- `PhpArray` covers the PHP semantics the code relies on:
  - ordered arrays with integer and string keys;
  - `is_numeric` on keys, following the PHP 7 grammar for numeric strings (the code calls
    `create_function`, which PHP 8 removed, so it runs on PHP 7);
  - truthiness;
  - `implode`, `str_replace('.', '', …)`, and `unset` / `$a[$k] = $v` on ordered arrays.
- `QueryBuilder` holds the SQL text and bound values of every statement as pure
  functions. It includes the re-keying loop of `select`, with lemmas on:
  - clause order;
  - the raw-before-named order of conditions;
  - placeholder and binding alignment;
  - `?` counts;
  - row-major flattening.
- `ErrorLog` models the `ErrorStack` class:
  - its entries are a `seq` field, and `add` appends to it;
  - the context is a field, set and cleared by `setContext` and `clearContext`;
  - `stack` runs its four filtering loops as `while` loops, proved equal to one
    combined filter `Matching`;
  - `hasError` and `getMessage` are proved against `Matching`.
- `Facade` models the `Database` class:
  - its fields are the counters, the row count of the last select, the connection
    flag and an optional in-memory map that stands in for the memcache daemon;
  - `select` implements the cache read-through, and the write methods add
    success/failure bookkeeping;
  - it builds the cache key, including `multi_implode`.
- `Examples` covers the calls of `example.php`.

Foreign computations are parameters:
- The PDO driver is a function argument of each operation. It returns the fetched
  rows and row count, a success, or the message of the `PDOException` it raised.
- `md5` and `PDO::quote` are constant function fields of `Database`.
- `Messages::generateMessage` is a constant function field of `ErrorStack`.
- The caller that `debug_backtrace` finds is an `Option` argument of `Add`.

## Model

| member | source | states |
|---|---|---|
| PhpArray.IntKeyTextIsNumeric | Database.php:155 | the decimal text of any integer key is numeric, so an integer key is raw under either reading |
| PhpArray.IdentifierIsNotNumeric | Database.php:155 | a key starting with a letter or underscore is not numeric, so column names are parameterized |
| PhpArray.DigitsAreNumeric | Database.php:155 | a non-empty run of digits is numeric |
| PhpArray.Truthy | Database.php:622-660 | PHP truthiness of a string: `''` and `'0'` are false, every other string is true; it decides which filters of `stack` apply and which context `add` keeps |
| PhpArray.IsNumericString | Database.php:155 | PHP 7 `is_numeric` on a string: optional leading whitespace, an optional sign, digits with an optional fraction (or a fraction alone), an optional exponent, and nothing after it |
| PhpArray.SpacedDigits | Database.php:155 | a key with trailing whitespace such as `'5 '` is not numeric, so it stays a named parameter; leading whitespace as in `' 5'` is allowed |
| PhpArray.IsNumeric | Database.php:155 | `is_numeric($key)` for an array key under PHP 7: every integer key, and a string key when its text is numeric; the same test decides raw versus named in `delete` at line 523 |
| PhpArray.Names | Database.php:169 | `array_keys`: the keys of an ordered array, one per entry and in order |
| PhpArray.KeyText | Database.php:169 | a key as concatenation prints it: a string key is itself, an integer key its decimal digits with a minus sign exactly when negative |
| PhpArray.Group | Database.php:164-167 | the guarded `$where_arr[] = …`: one element, the join, exactly when the join is not `''`, and no element otherwise |
| PhpArray.Substr | Database.php:575 | PHP 7 `substr` from a start that is not negative: `false` past the end or when a negative length reaches back before the start; otherwise the characters from the start, up to the length or up to that many characters before the end |
| PhpArray.Join | Database.php:166 | `implode($glue, $pieces)`: the pieces in order with the glue between neighbours, `''` for no pieces |
| PhpArray.JoinAppend | Database.php:165-180 | joining two non-empty lists puts exactly one separator between their joins |
| PhpArray.JoinEmptyIff | Database.php:166 | a join of non-empty pieces is `''` exactly when there are no pieces |
| PhpArray.JoinEmptyExactly | Database.php:166 | with a non-empty separator a join is `''` exactly when there is no piece or the one piece `''` |
| PhpArray.JoinGroup | Database.php:532-540 | keeping a join only when it is not `''` and joining that list again gives the same text |
| PhpArray.JoinOfGroups | Database.php:164-180 | keeping each group's join only when it is not `''` and joining again is one join over both groups, first group first, unless a group is the single piece `''` (the only non-empty group whose join is `''` when the separator is not empty) |
| PhpArray.JoinPrefixed | Database.php:394 | writing `:` once and gluing with `,:` equals prefixing every key with `:` and gluing with `,` |
| PhpArray.StripDots | Database.php:169 | the result has no dot, is no longer than its input and uses only its input's characters |
| PhpArray.StripDotsNoDot | Database.php:169 | text without a dot is unchanged |
| PhpArray.StripDotsIdempotent | Database.php:169-173 | stripping twice is stripping once |
| PhpArray.Unset | Database.php:160 | after `unset` the key is absent; every remaining entry was in the array, and every entry under another key remains |
| PhpArray.Put | Database.php:173 | after `$a[$k] = $v` the key is present and holds `v`; every old entry keeps its key and position, and every entry under another key keeps its value; a new key adds exactly one entry, at the end |
| PhpArray.Overwrite | Database.php:173 | overwriting an existing key keeps all keys in place, gives the key the new value and keeps every other value |
| PhpArray.UnsetAbsent | Database.php:160 | unsetting an absent key leaves the array as it is |
| PhpArray.UnsetAppend | Database.php:160 | `unset` works entry by entry: unsetting in a concatenation is unsetting in each part, so the remaining entries keep their order |
| PhpArray.KeySet | Database.php:170-174 | the set of keys of an array: exactly the keys `array_keys` lists |
| PhpArray.UnsetKeys | Database.php:172 | `unset` removes exactly its key from the set of keys |
| PhpArray.PutKeys | Database.php:173 | an assignment adds exactly its key to the set of keys |
| PhpArray.NamesAppend | Database.php:153-162 | the keys of a concatenation are the keys of its parts, in order |
| QueryBuilder.RawFragments | Database.php:153-162 | raw fragments have no `''` and are no more than the where entries |
| QueryBuilder.NamedEntries | Database.php:153-162 | no key left after the numeric keys are unset is numeric |
| QueryBuilder.Condition | Database.php:169 | one named condition is the key, ` = :`, and the key with its dots stripped |
| QueryBuilder.NamedConditions | Database.php:169 | one condition per named key, in the order of the keys |
| QueryBuilder.WhereClause | Database.php:164-180 | the WHERE clause as the code assembles it: the raw join and the named join, each kept only when not `''`, joined with ` AND ` after ` WHERE `, and `''` when neither is kept |
| QueryBuilder.WhereClauseIsConditionJoin | Database.php:153-180 | the WHERE clause is ` WHERE ` + the ` AND `-join of the raw fragments followed by one `k = :strip(k)` per named key, and is absent exactly when there are no conditions |
| QueryBuilder.FilterTextOrder | Database.php:176-187 | the join fragment follows the conditions, after ` AND ` exactly when there is a WHERE clause, verbatim otherwise |
| QueryBuilder.FilterText | Database.php:186-187 | the WHERE clause (none without a where array) followed by the join fragment, with ` AND ` between them only when the WHERE clause is not empty |
| QueryBuilder.Clause | Database.php:189-199 | an optional clause: the keyword followed by the fragment when the parameter is set, `''` (a `null` in the code) when it is not |
| QueryBuilder.SelectSql | Database.php:215 | the query text: fields joined with commas, table, filter text, then GROUP BY, ORDER BY and LIMIT, each only when its parameter is set |
| QueryBuilder.SelectClauseOrder | Database.php:186-215 | select text is fields, table, conditions, join, GROUP BY, ORDER BY, LIMIT, each optional clause present only when its parameter is set |
| QueryBuilder.FetchOf | Database.php:201-211 | `single` (which lines 130-134 turn into `singleRow` and `singleColumn`) forces one row in single-column mode; `num` and `singleColumn` select their modes; anything else fetches associatively; a single row is fetched iff `single` or `singleRow` |
| QueryBuilder.ReKeyKeepsOrder | Database.php:170-174 | when no two keys collide once their dots are stripped, re-keying gives every named entry under its stripped key, in the original order |
| QueryBuilder.ReKeyFrom | Database.php:170-174 | the re-keying loop: for each named entry in turn, its key is unset in the array being changed and its value assigned under the key with the dots stripped |
| QueryBuilder.ReKey | Database.php:170-174 | the loop run over a copy of the named entries on those same entries |
| QueryBuilder.SelectBindings | Database.php:170-174 | no bound values without a where array, otherwise the re-keyed named entries (the raw ones having been unset at line 160) |
| QueryBuilder.ReKeyInvariant | Database.php:170-174 | the loop invariant of re-keying: the untouched entries, then the handled entries stripped |
| QueryBuilder.ReKeyStep | Database.php:171-173 | one iteration moves the head entry, re-keyed, to the end |
| QueryBuilder.HeadKeyFresh | Database.php:171-173 | without collisions, neither the current key nor its stripped form occurs elsewhere in the array |
| QueryBuilder.SelectPlaceholdersMatchBindings | Database.php:169-174 | when no two keys collide once their dots are stripped, the i-th named condition reads `key = :name` where `name` is the key of the i-th bound value, and the values are carried unchanged |
| QueryBuilder.PlaceholderNames | Database.php:169 | the names of the `:name` placeholders: each named key with its dots stripped |
| QueryBuilder.ReKeyFromKeys | Database.php:170-174 | for distinct keys, the loop ends with exactly the keys already handled and the stripped keys still to handle, colliding keys included |
| QueryBuilder.ReKeyBindsPlaceholders | Database.php:170-174 | for distinct keys, the bound names are exactly the placeholder names, whether or not keys collide once stripped |
| QueryBuilder.NamedEntriesUnique | Database.php:153-162 | named keys left from a where array with distinct keys are distinct |
| QueryBuilder.SelectPlaceholdersBound | Database.php:169-174 | for any where array (its keys distinct, as in PHP) every `:name` placeholder of the text is bound and no other name is, even when keys collide once stripped |
| QueryBuilder.DottedKeysCollide | Database.php:170-174 | `a.b` and `ab` merge into one binding, the later value winning |
| QueryBuilder.Stripped | Database.php:173 | each entry under its stripped key, same length and order |
| QueryBuilder.DataBindings | Database.php:395 | `insert` and `update` bind under exactly the data keys |
| QueryBuilder.Columns | Database.php:558-562 | `implode_key` lists the keys of the data in order |
| QueryBuilder.InsertSql | Database.php:394 | the insert text: the keys joined with `,` as the column list and joined with `,:` after `:` as the placeholder list |
| QueryBuilder.InsertPlaceholdersAlign | Database.php:394 | the column list and the `:`-placeholder list come from the same keys in the same order; with no data they are `()` and `(:)` |
| QueryBuilder.QuestionMarks | Database.php:433-435 | the inner `for` loop: exactly one `?` per value of the row |
| QueryBuilder.RowGroup | Database.php:432-436 | one row's group: `(`, one `?` per value of the row joined with `,`, `)` |
| QueryBuilder.RowGroups | Database.php:430-436 | one group per row, in row order |
| QueryBuilder.Flatten | Database.php:439 | `array_merge` of the rows' values, row after row |
| QueryBuilder.InsertBatchSql | Database.php:443 | the batch text: the fields joined with `,`, then the row groups joined with `,` |
| QueryBuilder.RowGroupMarks | Database.php:432-436 | a row group holds one `?` per value of its row |
| QueryBuilder.InsertBatchMarksMatchValues | Database.php:430-446 | the VALUES list holds exactly as many `?` as there are flattened values |
| QueryBuilder.FlattenRowMajor | Database.php:439 | value j of row i sits at the total length of the earlier rows plus j |
| QueryBuilder.CountAppend | Database.php:436 | occurrences of a character add up over concatenation |
| QueryBuilder.Assignment | Database.php:482 | one assignment `key = :key` for a data key |
| QueryBuilder.SetList | Database.php:481-482 | the `$sql .=` loop: every assignment followed by a comma |
| QueryBuilder.MatchClause | Database.php:484-487 | ` WHERE id = :id` when the match list is `null` or empty, otherwise ` WHERE ` and one `name = :name` per listed name joined with ` AND ` |
| QueryBuilder.UpdateSql | Database.php:480-487 | the update text: `UPDATE t SET ` and the assignment loop with its last character removed, then the match clause |
| QueryBuilder.SetListIsJoin | Database.php:481-482 | the `$sql .=` loop is the comma-join of the assignments followed by a trailing comma |
| QueryBuilder.UpdateSetShape | Database.php:480-487 | with data, the SET list is the comma-join of `k = :k` with the last comma removed; with no data the cut removes the space after SET |
| QueryBuilder.UpdateDefaultMatchesId | Database.php:484-487 | no match list, an empty one and `['id']` give the same statement |
| QueryBuilder.MatchConditions | Database.php:487 | one `v = :v` per listed match name, in order |
| QueryBuilder.DeleteShape | Database.php:518-540 | unless the raw values are the single value `''`, a delete is `DELETE FROM t WHERE ` + the ` AND `-join of the raw values first, `''` ones included, then `k=quote(v)` per named key |
| QueryBuilder.DeleteDropsLoneEmptyFragment | Database.php:532-540 | when the raw values are the single value `''`, their join is dropped and only the `k=quote(v)` conditions follow ` WHERE ` |
| QueryBuilder.NumericValues | Database.php:521-527 | the values under numeric keys, in order, `''` included |
| QueryBuilder.QuotedConditions | Database.php:528-536 | `key=quoted value` for every named key, in order |
| QueryBuilder.DeleteSql | Database.php:518-540 | the delete text: the raw join and the quoted-condition join, each kept only when not `''`, joined with ` AND ` after `DELETE FROM t WHERE ` |
| QueryBuilder.SameKeyTextParts | Database.php:153-162 | where arrays whose keys print and classify alike and whose values agree give the same raw fragments, named entries and delete raw values |
| QueryBuilder.IntegerKeyAsText | Database.php:155 | an integer key and the string key of its decimal text give the same select and delete conditions, so PHP turning `'5'` into `5` changes nothing here |
| ErrorLog.Matching | Database.php:619-666 | the kept entries are no more than the log |
| ErrorLog.Passes | Database.php:622-660 | an entry passes when it equals each truthy class, function and context filter and a non-zero code filter |
| ErrorLog.MatchingConcat | Database.php:619-666 | filtering distributes over concatenation, so the matches keep the log's order |
| ErrorLog.MatchingMembers | Database.php:619-666 | an entry is returned exactly when it is in the log and passes every truthy filter |
| ErrorLog.MatchingFirst | Database.php:692-696 | the first match is the entry at the first index that passes |
| ErrorLog.MatchingNonEmpty | Database.php:676-679 | something matches exactly when some entry passes |
| ErrorLog.MatchingUnfiltered | Database.php:621-622 | with every filter falsy the whole log is returned |
| ErrorLog.MatchingCompose | Database.php:631-665 | filtering by one filter and then another equals filtering once by their conjunction |
| ErrorLog.FourFilters | Database.php:619-666 | the four successive one-field filters equal the combined filter |
| ErrorLog.StackAfterAdd | Database.php:727-733 | after an append, any query returns the old matches followed by the new entry when it passes |
| ErrorLog.ErrorStack.constructor | Database.php:601-602 | the stack starts empty with context `''` |
| ErrorLog.ErrorStack.Caught | Database.php:269 | the entry every catch block of `Database` adds (lines 67, 269, 314, 402, 459, 500, 548): class `Database`, the catching function, the rendered message, code 0, the current context |
| ErrorLog.ErrorStack.Add | Database.php:711-736 | exactly one entry is appended and earlier ones are untouched; a missing class and function come from the caller when there is one; a falsy context gives way to the current context |
| ErrorLog.ErrorStack.SetContext | Database.php:746-749 | the context becomes the argument; entries are unchanged |
| ErrorLog.ErrorStack.ClearContext | Database.php:755-758 | the context becomes `''`; entries are unchanged |
| ErrorLog.ErrorStack.Keep | Database.php:622-629 | one filtering loop keeps, in order, exactly the entries that pass |
| ErrorLog.ErrorStack.Stack | Database.php:619-666 | the result is the order-preserving subsequence of entries passing every truthy filter |
| ErrorLog.ErrorStack.HasError | Database.php:676-679 | true exactly when some entry passes the filters |
| ErrorLog.ErrorStack.GetMessage | Database.php:692-696 | `None` exactly when nothing passes; otherwise the message of the first entry that passes |
| Facade.ZeroCounters | Database.php:93-100 | exactly the six kinds, each at zero |
| Facade.Bump | Database.php:234 | the bumped counter goes up by one (from 0 when missing) and no other counter moves |
| Facade.CounterOf | Database.php:350-356 | one count exactly when the key is not `all` and has a counter, otherwise the whole map |
| Facade.FreshCounters | Database.php:93-100 | after initialization every kind reads 0 and any other key reads the whole map |
| Facade.BumpIsCounted | Database.php:350-356 | a bump shows in the next read of its kind and in no other kind |
| Facade.MultiImplode | Database.php:564-578 | with the default empty glue the result is `''`, because `substr($ret, 0, 0)` keeps nothing |
| Facade.Pieces | Database.php:566-572 | the `foreach` of `multi_implode`: each item's text, a nested array imploded the same way, followed by the glue |
| Facade.ItemTexts | Database.php:566-572 | what each item contributes, in order |
| Facade.PiecesJoin | Database.php:566-572 | the loop leaves the items' texts joined with the glue, plus one trailing glue |
| Facade.MultiImplodeIsJoin | Database.php:564-578 | with any non-empty glue, `multi_implode` is `implode` over the items' texts, a nested array contributing its own `multi_implode` |
| Facade.MultiImplodeFlat | Database.php:564-578 | with any non-empty glue, a flat array of scalars is imploded with that glue |
| Facade.MultiImplodeGlues | Database.php:564-578 | an example: `[a, [b, c]]` imploded with `,` is `a,b,c` |
| Facade.WhereValues | Database.php:221 | the original where values in order, none when there is no where array |
| Facade.WhereValue | Database.php:170-184 | `$parameters['where']` when the cache key is built: the values of the re-keyed named entries, or `null` (printed `''`) without a where array |
| Facade.ParamsValue | Database.php:221 | the `$parameters` array `multi_implode` receives: the re-keyed where array, then the other parameters |
| Facade.CacheKeyText | Database.php:221 | the text hashed into the key: `mysql_query_`, the query, `multi_implode($parameters)` and the where values glued with `''` |
| Facade.CacheKeyIsTextAndValues | Database.php:221 | the cache key text is `mysql_query_`, the query and the original where values glued without separator |
| Facade.CacheKeyIgnoresFetchShape | Database.php:221 | selects that differ only in `single`, `singleRow` or `fetchStyle` get the same cache key |
| Facade.SameShapeParts | Database.php:153-174 | where arrays with the same keys and raw values give the same raw fragments and the same parameter names |
| Facade.NamedConditionsByNames | Database.php:169 | the named conditions depend on the keys alone |
| Facade.SelectSqlIgnoresBoundValues | Database.php:153-215 | the select text does not depend on the values bound to named keys |
| Facade.TwoKeyBindings | Database.php:170-174 | two dot-free named keys are bound as they are, in order |
| Facade.FilterValuesCollide | Database.php:221 | `a='xy', b='z'` and `a='x', b='yz'` render the same text and bind differently, yet share a cache key |
| Facade.Stored | Database.php:586-589 | the cache stores the entry only when memcache is connected and the timeout is positive |
| Facade.Lookup | Database.php:581-584 | an entry is found exactly when memcache is connected and holds the key |
| Facade.LookupAfterStore | Database.php:581-589 | what was stored is found again under its key, and other keys are unaffected |
| Facade.Database.constructor | Database.php:45-48 | before initialization there is no connection, no memcache and no counters |
| Facade.Database.Initialize | Database.php:57-103 | a failed first connection records the error and returns false with nothing else changed; otherwise memcache is attached if not already, all counters are reset and true is returned |
| Facade.Database.SetCache | Database.php:586-589 | true and stored exactly when memcache is connected and the timeout is positive |
| Facade.Database.GetCache | Database.php:581-584 | the entry under the key when memcache is connected and holds it, otherwise nothing |
| Facade.Database.Select | Database.php:128-272 | a hit bumps `cache` and runs nothing; a miss runs the driver, bumps `select` and offers the entry to the cache; `numrows` is the entry's; a driver failure records the error and returns `None` with counters, cache and `numrows` unchanged |
| Facade.Database.Sql | Database.php:283-289 | the `sql` counter goes up by one and the driver's answer is returned unchanged |
| Facade.Database.Write | Database.php:396-406 | success bumps the kind's counter and records nothing; failure records one error and counts nothing |
| Facade.Database.Insert | Database.php:390-407 | the statement is the rendered insert bound with the data; the `insert` counter moves iff the driver succeeds; failure records one `insert` error |
| Facade.Database.InsertBatch | Database.php:420-464 | the statement is the rendered batch bound with the row-major values; one success bumps `insert` once; failure records one `insertBatch` error |
| Facade.Database.Update | Database.php:476-504 | the statement is the rendered update bound with the data; `update` moves iff the driver succeeds |
| Facade.Database.Delete | Database.php:514-552 | the statement is the rendered delete with quoted values and no bindings; `delete` moves iff the driver succeeds |
| Facade.RepeatedSelectIsCached | Database.php:227-263 | with memcache connected and a positive timeout, a repeated select returns the first result from the cache: one select and one cache hit are counted |
| Examples.OrderedPage | example.php:24-29 | the page select renders `SELECT * FROM Users ORDER BY … LIMIT …` with no WHERE |
| Examples.OneKeyWhere | example.php:36-42 | a one-column where array gives ` WHERE uid = :uid` |
| Examples.OneKeyBindings | example.php:36-42 | the lookup binds the value under the column name |
| Examples.OneKeySql | example.php:36-42 | the single-row select text |
| Examples.SingleRowByKey | example.php:36-42 | text, bindings and a one-row associative fetch of the single-row select |
| Examples.SingleValueByKey | example.php:55-61 | `single` fetches one row in single-column mode |
| Examples.InsertTwo | example.php:65-69 | `(first_name,last_name) VALUES (:first_name,:last_name)` |
| Examples.ThreeAssignments | example.php:75-82 | the SET list of the three columns |
| Examples.UpdateThree | example.php:75-82 | the update matched on `uid` |
| Examples.DeleteByKey | example.php:85-88 | the delete quotes the `uid` value into the text |

## Behaviour of the code worth knowing

The model follows the code in each of these places:

- The cache key is `md5` of `mysql_query_`, the query text and the original where values
  glued without a separator. `multi_implode($parameters)` adds nothing, because with its
  default glue `''` it always returns `''`. Two consequences follow:
  - Different filter values can share a key (`Facade.FilterValuesCollide`).
  - Selects that differ only in fetch shape share a key, so a cached result comes back
    in the shape of whichever call stored it (`Facade.CacheKeyIgnoresFetchShape`).
- Keys that differ only by dots merge silently into one binding (`QueryBuilder.DottedKeysCollide`).
- `delete` quotes the values into the text instead of binding them.
- `delete` keeps raw fragments that are `''`, unlike `select`.
- `insertBatch` starts a transaction but does not roll back when the driver fails.
- `update` does not check that the match names are keys of the data.

## Left out

- The PDO driver itself (connection, `prepare`, `execute`, `fetch`, `fetchAll`, `rowCount`, `exec`, `query`): each operation takes the driver's outcome as a function argument.
- The transaction calls in `insertBatch` and the `startBatch` and `executeBatch` wrappers: atomicity is the driver's business. Because the catch does not roll back, no atomicity is claimed.
- `lastInsertId`, `listTables`, `listColumns`: driver pass-throughs with no logic of their own.
- The memcache network client, its expiry, compression and a failed `set`: memcache is an optional in-memory map. A stored entry stays until overwritten.
- `md5`, `PDO::quote`, `Messages::generateMessage` and `debug_backtrace`: uninterpreted functions and arguments. `Messages` is not part of this model.
- The deprecated string `where` branch of `select`, which exits the process.
- The `showQuery` echo of `select` and `update`, and `ErrorStack::dump`: debug output.
- Configuration constants, the `ERROR_LEVEL` error-mode switch and `class_exists('Memcache')`: exceptions are assumed on, matching the default.
- Facade.Database.Sql: in exception mode a failing `query` throws out of `sql` uncaught; the model only passes the driver's answer through.
- Facade.MultiImplode: the order in which `ParamsValue` lists the parameters is fixed. With the empty glue it does not matter.
- Facade.ParamsValue: it lists every recognised parameter, an unset one as `''`, and no others. The caller's key order and any extra keys of `$parameters` are not modelled. With the empty glue that `select` passes they contribute nothing either.
- PhpArray.Substr: negative start offsets are not modelled; the core calls `substr` only with start 0.
- PHP's conversion of decimal-string keys such as `'5'` into integer keys: keys keep the kind the caller gives them. `QueryBuilder.IntegerKeyAsText` shows that the select and delete conditions do not depend on it.
- Array values are modelled by their string form. Non-string values, `null` values and the loose `!= ''` comparison on numbers are not modelled.
- ErrorLog.Passes: the error code is an `int` and every field is compared exactly. The code documents `string|int` codes and compares with PHP's loose `==`: a string code `'0'` or `''` switches the filter off, `'5'` matches `5`, and numeric strings compare by value (`'1.0'` matches `'1'`). Loose comparison of numeric strings needs their float values, which this model does not compute.
- Facade.Database.Select: a `fetch` that finds no row returns `false` in PHP, the same value as failure. The model returns the driver's rows, keeping the two apart.
- Calling an operation before `initialize` (a fatal error on a null handle) and use of the facade from several threads.
- Facade.Database.QueryCounter and Facade.Database.NumRows: they read state with no contract of their own. Before any select, `numrows()` casts `null` to 0, which the constructor's 0 gives. Before `initialize`, `queryCounter` returns `null`, modelled as the empty map.
