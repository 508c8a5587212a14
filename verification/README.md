# node-querybuilder: the SQL text compiler of `Adapter`, in Dafny

The MySQL adapter of node-querybuilder (`index.js`) is a chainable query
builder. Calls such as `where`, `from`, `join`, `select`, `group_by` or
`limit` append fragments to per-statement arrays and strings. A terminal
method (`get`, `get_where`, `insert`, `update`, `delete`, `query`) compiles
those into one SQL string, hands the string to the driver, and resets the
builder with `resetQuery`. Everything that decides the SQL text is modelled
here as pure functions over an immutable `State`:

- identifier quoting: `escapeIdentifiers`, `protectIdentifiers` and
  `hasOperator`;
- alias bookkeeping: `trackAliases`;
- value quoting: `qb_escape`;
- the clause methods;
- the `build*` helpers and `compileSelect`;
- the statement each terminal method sends.

A terminal method returns an `Outcome`: either `Sent(sql, next)`, or
`Skipped` when the source sends nothing. Where the source throws, the model
returns an `Err` carrying the source's message.

Modules (one per file):

| module | file | what it holds |
|---|---|---|
| Results | results.dfy | `Result<T>` with `Ok`/`Err` |
| Text | text.dfy | whitespace, `split`, `join`, `trim`, `toUpperCase`, number formatting, the global `escape` |
| Values | values.dfy | the JavaScript values arguments carry; truthiness, string conversion, `qb_escape` |
| Builder | state.dfy | the builder state, `resetQuery`, the initial state |
| Identifiers | identifiers.dfy | `escapeIdentifiers`, `hasOperator`, `protectIdentifiers`, `trackAliases`, `createAliasFromTable` |
| IdentifierFacts | identifier_facts.dfy | properties of the identifier functions |
| Conditions | conditions.dfy | `where`, `or_where`, the `where_in` family, `_where`, `_where_in`, the `like` family, `_like` |
| ConditionFacts | condition_facts.dfy | properties of the WHERE fragments |
| Relation | relation.dfy | the join-relation pattern `/([\w\.]+)([\W\s]+)(.+)/` as a leftmost-match search |
| Sources | sources.dfy | `from` and `join` |
| Columns | columns.dfy | `select`, the aggregates, `distinct`, `group_by`, `having`, `order_by`, `limit` |
| Compile | compile.dfy | `buildWhereClause`, `buildFromClause`, `buildJoinString`, `buildDataString`, `compileSelect` |
| Terminal | terminal.dfy | `insert`, `insert_ignore`, `doBatchInsert`, `get`, `get_where`, `update`, `delete`, `query` |

The builder functions take the quoting function as a parameter
(`protect: string -> string`). Two facts about this model follow the code
rather than its documentation:

- `trackAliases` records a whole entry such as "t u", not its alias
  (index.js:130-135). So the alias lookup of `protectIdentifiers`
  (index.js:207) never matches an alias a statement declared, and "u.*"
  after `from('t u')` is quoted as "`u`.`*`".
- A batch insert sends `VALUES(` with no space before the first tuple,
  because `index.js:816` writes it that way.
- The IN list of `_where_in` is rendered as one value. Its array test on
  `index.js:476` reads `value`, a variable that is still undefined at that
  point. So `values` is always wrapped in a one-element array, and an array
  argument is joined with "," and never quoted.

## Model

| member | source | states |
|---|---|---|
| Builder.Reset | index.js:93-108 | After a reset every accumulator is empty, every clause text blank, limit and offset unset and the registry empty; only the SQL just sent survives, as the last query |
| Builder.Initial | index.js:78-91 | A new adapter starts clean, with an empty last query |
| Builder.CleanIsDeterminedByLastQuery | index.js:93-108 | Two reset states with the same last query are equal, so nothing a statement accumulated can reach the next one |
| Text.Split | index.js:202 | `split` returns at least one piece; no piece contains the separator; joining the pieces with it gives back the input; there is exactly one piece iff the separator is absent |
| IdentifierFacts.SplitJoin | index.js:202 | Pieces free of the separator, joined with it and split again, come back unchanged: the inverse of the law above |
| Text.Trim | index.js:598 | `trim` leaves no whitespace at either end; the result is empty iff the input is all whitespace; text without whitespace is unchanged |
| Text.CollapseSpaces | index.js:172 | The result holds no whitespace other than ' ' and never two spaces in a row; its non-whitespace characters are the input's in order; a leading run stays a leading space; text without whitespace is unchanged; the result has whitespace iff the input has |
| Text.CollapseSpacesRun | index.js:172 | A non-empty run of whitespace becomes exactly one space |
| Text.CollapseSpacesAppend | index.js:172 | Collapsing a concatenation cut outside a whitespace run collapses each side on its own; with `Text.CollapseSpacesRun`, every run becomes one space where it stood and nothing else changes |
| Text.JsEscape | index.js:338 | The global `escape` that `this.escape` reaches: its output holds only ASCII letters, digits, `@*_+-./` and '%' and is never shorter than the input; a string made only of letters, digits and `@*_+-./` comes back unchanged |
| Text.JsEscapeAppend | index.js:338 | `escape` distributes over concatenation |
| Text.JsEscapeApostrophe | index.js:338 | An apostrophe between unescaped text becomes `%27`, as in `O'Brien` to `O%27Brien` |
| Text.ToUpper | index.js:617 | Upper-casing keeps the length and maps each character on its own |
| Values.QbText | index.js:336-348 | A string becomes the output of `quote` between single quotes; a boolean becomes 1 or 0; null becomes NULL; a number its decimal digits; only strings produce a leading quote |
| Values.QbTextGlobalEscape | index.js:336-339 | With the global `escape`, a string becomes `'` + its escaped form + `'`, and the escaped form holds no quote, so no value closes the literal early |
| Identifiers.EscapeIdentifiers | index.js:140-155 | '' and '*' pass through unchanged; any other item comes back starting and ending with a backtick |
| IdentifierFacts.EscapeWrapsSegments | index.js:146-154 | For an item without backticks that does not start with '.', each dot-separated segment is wrapped in backticks and the segments are joined with '.' |
| IdentifierFacts.EscapePlainName | index.js:150-154 | A name without dots or backticks is wrapped in one pair of backticks |
| IdentifierFacts.EscapeNotIdempotent | index.js:153-154 | Escaping twice differs from escaping once: only the first run of backticks is collapsed, so "do" becomes "`do`" and then "`do``" |
| IdentifierFacts.HasOperatorIff | index.js:327-334 | `hasOperator` holds iff the trimmed text contains one of < > ! = or an interior whitespace (every keyword alternative starts with whitespace); a non-string always counts as having an operator |
| Identifiers.FirstAs | index.js:176-177 | Finds the leftmost " AS " match, case-insensitively; -1 exactly when there is none |
| Identifiers.TrackAliases | index.js:110-138 | The registry only grows, by at most one new entry, and that entry contains a space; the call fails iff an array reaches the string methods, which happens for an array element "," or " ", or a comma list with a " " piece |
| IdentifierFacts.TrackRecordsWholeEntry | index.js:126-136 | Both "x AS y" and "x y" record the whole entry "x y", with AS removed, and record it once |
| IdentifierFacts.StripAsKeywordRun | index.js:128 | The AS replacement turns " AS y" into " y" for any case of the keyword |
| IdentifierFacts.TrackArrayRecordsNothing | index.js:110-126 | An array of table names records no alias: the object branch does not take arrays, and an array has no space element to find |
| IdentifierFacts.TrackKeepsRegistryShape | index.js:126-136 | Tracking keeps the registry duplicate-free with a space in every entry |
| IdentifierFacts.RegistryMissesPlainBase | index.js:201-207 | The lookup tests the text before the first dot, which never holds a space, so when there is no AS alias the registry cannot change the result |
| IdentifierFacts.ProtectAsAlias | index.js:176-180 | "x AS y" is protected as quoted x, the keyword as written, then quoted y; with protection off it is left as written |
| IdentifierFacts.ProtectBareAlias | index.js:181-186 | "x y" with an operator-free alias becomes quoted x, a space, then quoted y |
| IdentifierFacts.ProtectOperatorRemainder | index.js:181-186 | When the text after the first space has an operator it is kept verbatim after the quoted base ("a > 1" becomes "`a` > 1") |
| IdentifierFacts.ProtectDropsAliasOfCall | index.js:181-196 | A base holding '(' or a quote is returned alone, and whatever followed the space is dropped |
| IdentifierFacts.ProtectUnprotected | index.js:157-232 | With protection off, an item without '(' or a quote only has its whitespace collapsed |
| IdentifierFacts.ProtectDottedName | index.js:201-226 | An untracked dotted name is quoted segment by segment |
| IdentifierFacts.ProtectDottedBranches | index.js:201-226 | A dotted name whose first segment is a tracked alias has each part escaped and the parts joined with '.'; otherwise the whole item is escaped |
| IdentifierFacts.ProtectTrackedPrefix | index.js:207-219 | Apart from '*' segments, a tracked prefix gives the same text as an untracked one |
| IdentifierFacts.ProtectStarAfterAlias | index.js:207-225 | The two dotted branches differ only on '*': against the registry ["u"], "u.*" gives "`u`.*"; against an empty one, "`u`.`*`". `trackAliases` never builds ["u"] |
| IdentifierFacts.ProtectStarWithTrackedRegistry | index.js:201-225 | Against any registry whose entries all hold a space, which covers every registry `trackAliases` builds, "u.*" gives "`u`.`*`" |
| IdentifierFacts.ProtectStarAfterTableAlias | index.js:126-136 | After "t u" is tracked, "u.*" still gives "`u`.`*`": the whole entry is recorded, not the alias |
| IdentifierFacts.ProtectColumn | index.js:227-231 | A plain column name is wrapped in backticks, and neither it nor the result has an operator |
| IdentifierFacts.ProtectQualified | index.js:201-226 | "t.c" made of word characters becomes "`t`.`c`" whatever the registry holds |
| Identifiers.CreateAliasFromTable | index.js:369-375 | An item without a dot is its own alias; otherwise the alias is the text after the last dot: a dot-free suffix of the item with a dot just before it |
| Columns.CreateAliasOfQualified | index.js:369-375 | The alias of "t.c" is "c" |
| Conditions.Prefix | index.js:436 | A fragment starts with no connective exactly when it is the first one |
| Conditions.WhereIn | index.js:467-494 | An empty key or empty values leave the state unchanged; otherwise exactly one fragment is appended and the pending IN list is cleared |
| ConditionFacts.WhereInListUnescaped | index.js:476-487 | An array of values is joined with ',' (no space) and not quoted, inside "key IN (...)" or "key NOT IN (...)" with a trailing space |
| ConditionFacts.WhereInScalarQuoted | index.js:476-487 | A single string value is quoted through `qb_escape` |
| ConditionFacts.WhereNotInExample | index.js:410-412 | `where_not_in('id', ['a','b'])` gives "`id` NOT IN (a,b) " |
| Conditions.WherePairs | index.js:429-462 | Only the WHERE accumulators change; earlier fragments stay as a prefix; one fragment is added per pair before the first array-valued pair, plus at most one IN fragment |
| ConditionFacts.WhereFragmentsInOrder | index.js:429-462 | Without array values, the pairs of a mapping become one rendered condition each, in enumeration order; each after the first existing fragment is prefixed by the connective |
| ConditionFacts.WhereStopsAtFirstList | index.js:432-434 | The first array-valued pair of a mapping ends the call: `where({a:[1], b:2})` yields only "`a` IN (1) " |
| Conditions.Where | index.js:380-400 | `where`/`or_where` change only the WHERE accumulators; they keep earlier fragments and add at most one per key |
| ConditionFacts.WhereOnColumn | index.js:380-465 | `where(col, v)` appends "connective `col` = quoted v"; a falsy v gives "`col` IS NULL" |
| ConditionFacts.WhereRawGluesValue | index.js:442-458 | A raw `where` glues the value to "col =" with no space |
| ConditionFacts.WhereMappingExample | index.js:423-462 | `where({a:1, b:null})` gives ["`a` = 1", "AND `b` IS NULL"] |
| Conditions.Like | index.js:496-557 | Only the WHERE array changes, by exactly one fragment per field |
| ConditionFacts.LikeProtectsTwice | index.js:536-553 | The LIKE statement is protected again by `_where`, so `like('f','x')` appends "`f`` LIKE '%x%'" with a doubled closing backtick |
| Relation.FindRelationLeftmost | index.js:629 | The relation search fails iff no start position and group split satisfy the pattern, and a match is at the leftmost position where one exists |
| Relation.RelationGroups | index.js:629 | A relation made of a word/dot run, a non-word run and a rest starting with a word character splits into exactly those three groups, after any non-word prefix |
| Sources.RewriteRelationGroups | index.js:628-634 | The rewritten relation is the protected first group, the operator text unchanged, then the protected third group |
| Sources.Direction | index.js:612-624 | A direction is upper-cased and, when it is one of the six allowed directions, followed by a space; anything else gives '' |
| Sources.DirectionIgnoresCase | index.js:612-624 | Any spelling of a direction gives the same text as its upper-cased form |
| Sources.JoinTable | index.js:611-640 | A join fails iff the table is an array (it has no string methods) or alias tracking fails; otherwise only the registry and the join array change, the join array by exactly one fragment |
| Sources.JoinOnQualified | index.js:611-640 | `join('t', 't1.c1 = t2.c2', dir)` appends "DIR JOIN `t` ON `t1`.`c1` = `t2`.`c2`" |
| Sources.From | index.js:580-609 | `from` changes only the FROM array and the registry, and keeps earlier FROM entries as a prefix |
| Sources.FromAddsTablePieces | index.js:580-609 | `from` adds exactly one entry per trimmed comma piece of its argument |
| Sources.AddAllEntries | index.js:584-606 | Each added entry is protected against the registry as tracked up to and including that entry |
| Sources.FromCommaStringIsArray | index.js:587-596 | A comma-separated string behaves exactly like the array of its pieces |
| Sources.FromChained | index.js:580-609 | Two `from` calls equal one call on the concatenated arrays |
| Sources.FromKeepsRegistryShape | index.js:592-602 | `from` keeps the registry duplicate-free with a space in every entry, and only grows it |
| Sources.FromOfColumn | index.js:597-605 | `from('t')` for a plain name adds "`t`" and nothing else |
| Sources.FromAliasedPair | index.js:587-596 | `from('x y, z')` adds "`x` `y`" and "`z`" and records the alias entry "x y" |
| Columns.SelectPieces | index.js:645-647 | The comma pieces of a select string join back into it |
| Columns.Select | index.js:642-657 | `select` changes only the select array, keeping earlier columns as a prefix |
| Columns.SelectAppendsKept | index.js:642-657 | `select` appends the protected form of every non-blank trimmed piece, in order |
| Columns.SelectOfBlanks | index.js:649-655 | A select of blank pieces changes nothing |
| Columns.SelectPair | index.js:645-655 | `select('a, b')` appends "`a`" and "`b`" |
| Columns.MinMaxAvgSum | index.js:659-701 | A missing or non-string column fails with "Invalid query!", and a type outside MAX/MIN/AVG/SUM with "Invalid function type!"; otherwise exactly one select entry is added and nothing else changes |
| Columns.AggregateDefaultsToMax | index.js:676-678 | A missing aggregate type means MAX |
| Columns.AggregateOfQualified | index.js:692-698 | `select_max('t.c')` appends "MAX(`t`.`c`) AS c"; an explicit alias replaces c |
| Columns.Distinct | index.js:703-706 | `distinct` sets "DISTINCT " and changes nothing else |
| Columns.CommaSeparated | index.js:708-717 | A string is used as given; anything that is neither a string nor an array gives '' |
| Columns.CommaSeparatedOfNames | index.js:710-712 | An array of names gives the same text as the names written out with ', ' |
| Columns.GroupBy | index.js:719-722 | Only the GROUP BY text changes, and the last call wins |
| Columns.Having | index.js:724-727 | Only the HAVING text changes, and the last call wins |
| Columns.OrderBy | index.js:729-732 | Only the ORDER BY text changes, and the last call wins |
| Columns.Limit | index.js:734-742 | Each argument is taken only when it is a number, and an earlier value is kept otherwise; nothing else changes |
| Compile.BuildWhere | index.js:234-241 | No fragments give ''; otherwise " WHERE " followed by the fragments joined with single spaces |
| Compile.BuildFrom | index.js:243-250 | No tables give "()" without FROM; otherwise " FROM (" + the tables joined with ', ' + ")" |
| Compile.BuildJoin | index.js:288-293 | '' exactly when the joined text is empty, and otherwise a leading space followed by the joins joined with spaces |
| Compile.BuildDataString | index.js:252-286 | An empty data set gives '' |
| Compile.DataStringJoins | index.js:252-286 | For non-object values: " SET " followed by `key=value` assignments joined by the separator, null as `=NULL` |
| Compile.DataStringTrailingSeparator | index.js:265-279 | An object value that comes last is skipped but leaves a dangling separator after the previous assignment |
| Compile.CompileSelect | index.js:350-367 | Every compiled statement starts with "SELECT " |
| Compile.CompileSelectStar | index.js:350-356 | Without select columns the DISTINCT text is followed by '*' |
| Compile.CompileSelectColumns | index.js:350-356 | With select columns the statement starts with "SELECT ", the DISTINCT text and the columns joined by ", ", with no '*' |
| Compile.CompileSelectEnds | index.js:356-364 | The statement ends with " OFFSET n" when an offset is set, otherwise with " LIMIT n" when a limit is set |
| Compile.CompileSelectOfClean | index.js:350-367 | An empty builder compiles to "SELECT *()" |
| Compile.CompileSelectIgnores | index.js:350-367 | The pending IN list, the registry and the last query do not affect the SELECT |
| Compile.CompileSelectPlain | index.js:350-367 | Without columns, joins or trailing clauses, the SELECT is "SELECT *" + FROM clause + WHERE clause |
| Compile.CompileSelectOneTableWhere | index.js:350-367 | One table and one condition give "SELECT * FROM (t) WHERE cond" |
| Terminal.Send | index.js:837-838 | What is sent is the given text, and the builder is then clean with that text as its last query |
| Terminal.Query | index.js:908-912 | `query(sql)` sends the text unchanged and resets the builder |
| Terminal.InsertText | index.js:762-767 | An insert statement starts with "<verb> into <protected table>" |
| Terminal.Insert | index.js:749-777 | A single row is sent iff the table is a string, starting with "<verb> into ", where the verb defaults to INSERT; an array of rows goes to the batch path; after a send the builder is reset |
| Terminal.InsertRowText | index.js:760-770 | The row text is "<verb> into `t` SET a=.., b=..", followed by " suffix" when a string suffix is given |
| Terminal.InsertEmptyRow | index.js:760-770 | An empty row sends just "<verb> into `t`" |
| Terminal.InsertIgnore | index.js:779-781 | For a single row, `insert_ignore` sends "INSERT IGNORE into ..." when the table is a string and nothing otherwise; an array of rows is exactly the batch insert with verb "INSERT IGNORE", whose statement starts "INSERT IGNORE INTO " |
| Terminal.BatchInsert | index.js:783-818 | No rows send nothing. A batch fails with the "fields must match" message iff some row's size differs from the column count; with matching sizes it succeeds iff `protectIdentifiers` accepts the table (a string, or an object whose values are all accepted); a sent batch starts "<verb> INTO " and resets the builder |
| Terminal.BatchTable | index.js:157-172 | A string table is protected; an object table comes back as "[object Object]" iff every value in it is, recursively, a string or an object; any other table fails with a TypeError |
| Terminal.ProtectFields | index.js:160-172 | The object branch walks the values in order, recursing into nested objects, and succeeds iff every remaining value is accepted, with a TypeError otherwise |
| Terminal.BatchColumnsKeepsAll | index.js:793-799 | When no key equals another key's protected form, every key of the first row is protected and kept, in order |
| Terminal.BatchColumnsDropsTickedTwin | index.js:793-799 | The duplicate test compares the raw key with protected columns, so a key written already in its protected form after its plain twin is dropped |
| Terminal.BatchRejectsTickedTwin | index.js:793-811 | Such a row then has more values than columns, and the batch is rejected with the mismatch message |
| Terminal.BatchInsertOfColumns | index.js:783-818 | Plain columns give "<verb> INTO `t` (`a`, `b`) VALUES(..),(..)" with the escaped values in row order |
| Terminal.Prepare | index.js:820-833 | A callback-only call fails iff no table was named before, with the source's message; a table argument fails only when alias tracking fails |
| Terminal.PrepareOfColumn | index.js:821-824 | A plain table argument adds "`t`" to the FROM list |
| Terminal.Get | index.js:820-841 | `get` fails exactly when its table preparation fails; otherwise it sends a "SELECT " statement and resets the builder |
| Terminal.GetOfColumn | index.js:820-841 | `get('t')` on an empty builder sends "SELECT * FROM (`t`)" |
| Terminal.GetWhere | index.js:843-858 | `get_where` always sends a "SELECT " statement and resets the builder |
| Terminal.GetWhereOfColumns | index.js:843-858 | `get_where('t', {k: v})` sends "SELECT * FROM (`t`) WHERE <condition>" |
| Terminal.GetWhereOfNothing | index.js:843-858 | With table '' and a null where on an empty builder, `get_where` sends "SELECT *()" |
| Terminal.Update | index.js:860-872 | An UPDATE is sent iff the table is a string, and the builder is then reset |
| Terminal.UpdateReadsOnly | index.js:860-872 | The statement depends only on the registry, the WHERE fragments and the limit |
| Terminal.UpdateOfColumn | index.js:860-872 | `update('t', data)` sends "UPDATE `t` SET ..." followed by the WHERE clause and " LIMIT n" when set |
| Terminal.Delete | index.js:878-902 | `delete` fails exactly when its table preparation fails; otherwise it sends a statement starting with DELETE and resets the builder |
| Terminal.DeleteIgnoresSelectParts | index.js:893-896 | Select columns, joins, ordering, grouping, HAVING, the offset and DISTINCT do not affect a DELETE |
| Terminal.DeleteOfNothing | index.js:893-896 | An empty table array on an empty builder sends "DELETE()" |
| Terminal.DeleteOfColumn | index.js:878-902 | `delete('t')` on an empty builder sends "DELETE FROM (`t`)" |
| Terminal.SentLeavesNothing | index.js:93-108 | After any send, a SELECT compiles to "SELECT *()", and a callback-only `get` or `delete` fails for want of tables |

## Left out

- The driver's `connection.query` call, the response callbacks and everything asynchronous are left out. A terminal method returns the SQL it would send instead.
- `count`, `ping`, `disconnect`, `forceDisconnect`, `releaseConnection`, the reconnect handler and the `Pool` class are left out. They issue or manage driver calls and build no SQL of their own beyond what `query` covers.
- The driver's `connection.escape` is a function parameter (`escape: Value -> string`), because its quoting rules live in the driver.
- The escaping function of `qb_escape` is a function parameter (`quote: string -> string`). `qb_escape` is called bare (index.js:445, 482) outside strict mode, so its `this.escape` (index.js:338) is the global `escape` (percent-encoding, modelled as `Text.JsEscape`), not the adapter's `this.escape` (index.js:874), which calls the driver. The WHERE lemmas hold for every `quote`, `JsEscape` included; `Values.QbTextGlobalEscape` states what the code as written produces.
- Numbers are integers only. Floating-point formatting is not modelled.
- Strings are sequences of Unicode code points, while JavaScript strings are sequences of UTF-16 code units. Only `Text.JsEscape` works on code units, through surrogate pairs. Everywhere else a character above U+FFFF is one element, where the source sees two.
- Relation.FindRelationLeftmost: the join-relation pattern of index.js:629 has no `u` flag, so it matches and backtracks one UTF-16 unit at a time. When the text after the operator ends in a character above U+FFFF, the source splits that character's surrogate pair between groups 2 and 3. For "a=😀" it gives group 2 "=\uD83D" and group 3 "\uDE00", while the model gives "=" and "😀". The model promises the code-point match only.
- `toUpperCase` is modelled for ASCII letters only.
- The object form of `protectIdentifiers` (index.js:160-169) is modelled only where an object reaches it, as a batch insert's table (`Terminal.BatchTable`). Its result there is an object converted to "[object Object]", so the model keeps only whether the walk succeeds. The protected keys are left out, because they never reach the SQL.
- Objects are given as sequences of pairs, and their enumeration order is taken to be the sequence order.
- Array elements other than strings, numbers, booleans, null, arrays and plain objects are left out.
- The `escape` argument of `select` is left out, because the source reads it and never uses it.
- The messages of JavaScript TypeErrors are modelled as `Err` with an engine-style message. Their exact text depends on the engine.
- `mergeObjects` and `getObjectSize` are left out as separate members. `getObjectSize` appears only as the pair count inside `BuildDataString`.
- The local `trim` helper (index.js:316-325) is left out, because nothing calls it. The code calls `String.prototype.trim` instead, which `Text.Trim` models for the whitespace characters of `Text.IsSpace`.
- The `joinClause` array is left out, because it is written and never read.
- `get_where` with an undefined `where`, which the source turns into the key "undefined", is left out.
- `get` and `delete` with an undefined table are left out.
- `insert` with a non-object, non-array data set is left out.
- Compile.BuildDataString: its own contract states only the empty case. The text is stated for data sets that hold no object or array value (`Compile.DataStringJoins`), and for a two-pair set whose second value is an object or array (`Compile.DataStringTrailingSeparator`). Other sets that mix in object values have no stated text.
- Compile.CompileSelect: its own contract states only the "SELECT " prefix. The full text is stated only when no column, join, GROUP BY, HAVING, ORDER BY, LIMIT, OFFSET or DISTINCT is set (`Compile.CompileSelectPlain`, `Compile.CompileSelectOneTableWhere`). Otherwise only parts are stated: the head with and without columns (`Compile.CompileSelectStar`, `Compile.CompileSelectColumns`), and the LIMIT/OFFSET ending (`Compile.CompileSelectEnds`).
- Terminal.GetWhere: its own contract states only the prefix and the reset. The text is stated only from an empty builder, for one bare-column pair (`Terminal.GetWhereOfColumns`) and for a null where with table '' (`Terminal.GetWhereOfNothing`).
- Identifiers.TrackAliases: an object argument (index.js:111-116), whose values are tracked one by one, is not part of the `Tables` argument type.
