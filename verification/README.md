# db2rest-bridge in Dafny

db2rest-bridge puts a generic REST interface in front of one SQL database. This project models the
parts of it that have to agree with each other and proves that they do, or exactly when they do:

- **The filter language** has four readings: SQL text, a JSON tree, a typed wrapper of that JSON, and
  an in-memory predicate. `SqlLexer` and `SqlCondition` are an independent lexer, parser and
  three-valued evaluator for SQL-92 search conditions (ISO/IEC 9075:1992, sections 5.1-5.3, 8.2-8.6
  and 8.12); `FilterSql` and `FilterParse` prove that what the printer writes is read back by them,
  `CondTokens`, `FilterTrees`, `QuoteCount` and `FilterFaithful` say for exactly which filters that is
  so, `Meaning` that the text asks of a row what the filter asks, and `Predicate` and `Agreement` for
  which filters a database evaluating that text keeps the rows that memory keeps.
- **Queries** travel as request parameters (`Query`), are built by a fluent builder over shared
  slices (`Builder`), and are answered page by page (`Paging`, `ListItems`). `ListTexts` and
  `ListLaws` show that the two texts of a listing carry the same condition for every filter, also
  for those that print to something else than they mean, and what a filter does whose text ends
  inside a SQL comment.
- **Writes** are SQL texts with positional values (`Statements`). `Engine` gives each text a meaning
  by parsing it and binding placeholders left to right; `Crud` runs single and bulk writes over it;
  `BulkLaws`, `UpdateLaws`, `DeleteLaws` and `WriteRuns` say what they leave behind, call by call and
  over whole runs.
- **The in-memory store** (`InMemory`) is a list of object references that refines a keyed map.

Where the code does not do what its documentation or a natural reading says, the exact condition is
proved as an if-and-only-if, and `Witnesses` gives a concrete input.

| what one would expect | when it holds |
|---|---|
| a filter survives JSON | it is nil or has no nil part (`FilterCodec.JsonRoundTrip`) |
| the wrapper's JSON reads as the same filter | no NOT has an operand and no slice is nil (`FilterCodec.WrapperDecode`) |
| a printed filter is a search condition | no empty junction or list, and every name a regular identifier that is not reserved (`FilterParse.PrintedTextParses`) |
| a printed filter is read as itself | moreover comparison operators are known ones and values numbers, booleans or strings without quotes (`FilterFaithful.FaithfulExact`, for every filter that has a text) |
| strings are printed faithfully, at any depth | none of them holds a quote (`FilterFaithful.StringsFaithfulExact`) |
| a listing is answered | its filter's text is a search condition, and the size is not negative, or nothing is found, or the text ends inside a comment (`ListLaws.ListedMeans`) |
| the pages of a listing add up to its total | the filter's text does not end inside a comment, or nothing is found, or one page is asked for (`ListLaws.PagesAddUpExact`) |
| the reported offset is the requested one | 24 binary digits hold it (`ListItems.OffsetExact`) |
| memory and SQL agree on every table | `=` and IN stand under an even number of NOTs and `<>` and `!=` under an odd one (`Agreement.AgreementExact`, for literals and separate columns); at one leaf: its column is not null, or so (`Agreement.LeafExact`) |
| memory can evaluate a filter | no member that counts has an unknown operator, a null test or a range (`Predicate.PanicExact`) |
| an order survives its text | its name has no `=` (`Query.OrderRoundTrip`) |
| ApplyPaging returns the page | offset 0, or page within the list, or offset past its end (`Paging.ApplyPagingExact`) |
| LoadAllInBatch succeeds | no call fails, and what has arrived is what the last call reports as total (`Paging.LoopExact`) |
| LoadAllInBatch ends | batch not empty, or nothing to load (`Paging.TerminationExact`) |
| LoadAllInBatch over the in-memory store is complete | everything fits in one batch (`InMemory.InMemoryLoad`) |
| the in-memory total is the number of matches (pkg/api/openapi.yaml:390-392) | a first page holds them all, or a later page has exactly that size and fits in the store, or there are none and the page starts past the end (`InMemory.ReportedTotal`) |
| an order without direction is ascending (pkg/api/openapi.yaml:131) | never: it decodes as descending (`Query.OrderDirections`) |
| bulk UPDATE works for every id | every id is a string and no value a list or an object, for id columns that no conversion rewrites; it panics at an id that is no string (`UpdateLaws.BulkUpdateExact`, `BulkUpdatePanicExact`) |
| bulk DELETE is the single deletes | one id, or no id is a list or an object and no row reads like an id that is neither string nor number (`DeleteLaws.MultiDeleteExact`; over the ids alone, `MultiDeleteAlways`) |
| Update returns the updated item | there was one, and the body leaves it the id it was called with (`WriteRuns.UpdateReadBack`) |
| Create returns the created item | it has the id that the driver reports (`WriteRuns.CreateReadBack`) |
| rows are shown only with read permission | for Get and List; Update and Create show theirs without (`WriteRuns.ReadPermissionExact`, `ListLaws.ListPermissionExact`) |

Conventions. A Go `interface{}` value is a `Value`; a number is identified with its `%v` text, and the
parameter `w: NumWire` says what that text becomes after the number went through JSON as a float64.
`Expr.Nil` is the nil interface, `Slice` tells a nil slice from an empty one, and `Result` separates
error returns from panics. Rows about the text of a filter are for filters of well-formed parts
(`FilterSql.Lexable`), except those of `FilterFaithful` and of the listing, which are for any; "any
text" is read by the modelled grammar, and what lies outside it is refused (see the end). Rows about
bulk writes are for a table whose key is the configured id column, names without back-quotes, and a
database that refuses nothing by itself (`Targets`, `PlainBodies`, `NeverRejects`); those about bulk
UPDATE moreover for id columns that the date and base64 conversions leave alone (`IdUntouched`),
except `UpdateObjectExact`. `Lex`, the parsers and a few long definitions are hidden inside proofs that
do not need them, to keep those proofs fast. `dafny verify dfyconfig.toml` checks the project.

## Model

| member | source | states |
|---|---|---|
| FilterSql.LexPrint | pkg/query/filter.go:55-216 | the text of a filter of well-formed parts, at any depth, lexes to its tokens, whatever follows at a token boundary |
| FilterParse.PrintedTextParses | pkg/query/filter.go:55-216 | for a filter of well-formed parts the text is one whole SQL-92 search condition exactly when no junction or IN list is empty and every name is a regular, unreserved identifier, and then has the filter's parse tree |
| FilterFaithful.FaithfulExact | pkg/query/filter.go:55-216 | every filter that has a text is read back from it, up to the operator of one-element junctions, exactly when its names are column names, its operators known, its values numbers, booleans or strings without quotes, and nothing is empty; anything else is read as another filter or not at all |
| FilterFaithful.OwnTreeExact | pkg/query/filter.go:55-216 | with declared operators, column names and non-empty lists the text has the filter's own parse tree exactly when operators and values are well-formed |
| FilterFaithful.StringsFaithfulExact | pkg/query/filter.go:55-64 | strings in comparisons, lists and ranges at any depth are printed faithfully exactly when none holds a quote |
| FilterParse.PrintRecovers | pkg/query/filter.go:55-216 | parsing the printed text gives the expression back, up to the operator of one-element junctions |
| Meaning.TextMeans | pkg/query/filter.go:55-216 | the text of a filter of well-formed parts is true, false or undecided on a row just as the filter is: every operator, ranges, lists, null tests, NOT, AND and OR, with nulls |
| FilterParse.RecoverCond | pkg/query/filter.go:88-97 | no structure is lost in the parse tree: the expression can be read off it, up to the operator of one-element junctions |
| FilterParse.CanonKeepsMeaning | pkg/query/filter.go:88-97 | the operator that a one-element junction does not print never changes which truth value a row gets |
| FilterFaithful.StringFaithfulIffNoQuote | pkg/query/filter.go:55-64 | a string comparison is printed faithfully exactly when the string holds no quote |
| CondTokens.OrTakes | pkg/query/filter.go:55-216 | whatever text a filter prints, a parse consumes exactly the tokens that its tree stands for |
| CondTokens.OrLeaves | pkg/query/query.go:115-130 | whatever text a filter prints, ORDER BY and LIMIT behind it are never drawn into its condition |
| Predicate.InPredicate | pkg/client/filter.go:32-40 | membership is decided by equality with any listed value |
| Predicate.JunctionPredicate | pkg/client/filter.go:54-70 | the accumulator loops compute the left-to-right, short-circuit conjunction or disjunction, with its panics |
| Predicate.FilterPredicate | pkg/client/filter.go:76-92 | the dispatcher computes the filter's truth value on every filter, gives no error, and panics exactly on what it cannot evaluate |
| Predicate.EqualityExact | pkg/client/filter.go:42-52 | whatever the kind of value, a property equals its own leaf value and no other; a missing or nested one equals nil alone |
| Predicate.EqualityIsMembership | pkg/client/filter.go:32-52 | equality is membership in a list of one, and both spellings of inequality are its negation |
| Predicate.JunctionExact | pkg/client/filter.go:54-70 | a conjunction holds exactly when every member does, a disjunction fails exactly when every member does |
| Predicate.PanicExact | pkg/client/filter.go:42-92 | evaluation panics exactly when it reaches an unknown operator, a null test or a range that no earlier member makes irrelevant |
| Predicate.SupportedNeverPanics | pkg/client/filter.go:42-92 | equality, inequality, membership, NOT, AND and OR never panic, on any row |
| Predicate.ConditionAgrees | pkg/client/filter.go:32-92 | SQL truth in positive places and SQL falsity in negative places are memory's answers, for strings, numbers and booleans, nulls included |
| Predicate.TextAgreesWithMemory | pkg/client/filter.go:76-92 | a database that parses the printed WHERE text keeps exactly the rows the predicate accepts |
| Predicate.NonNullAgrees | pkg/client/filter.go:32-92 | string filters agree on every row whose named columns hold strings |
| Agreement.TypedAgrees | pkg/client/filter.go:32-92 | filters over literals agree on every row whose named columns hold values of the kinds they are compared with |
| Agreement.AgreementExact | pkg/client/filter.go:32-92 | a filter over strings, or over any literals where the database decides their equality, whose junctions name separate columns selects the same rows of every fitting table in memory and in SQL exactly when equality and membership stand under an even number of NOTs and inequality under an odd one |
| Agreement.TextAgreementExact | pkg/client/filter.go:76-92 | the same for a database that parses the printed text |
| Agreement.LeafExact | pkg/client/filter.go:32-52 | a comparison or membership, under any number of NOTs, agrees exactly when the column is not null or being undecided has the effect of memory's answer |
| FilterCodec.JsonRoundTrip | pkg/query/codec.go:132-205 | decoding an encoded filter gives its normal form exactly when it is nil or has no nil part; type assertions fail exactly on nil slices and nil junction members |
| FilterCodec.DecodeFilterExact | pkg/query/codec.go:198-205 | what is neither an object nor null is an error, null is no filter, an object is decoded after its numbers became float64 |
| FilterCodec.FirstKeyDecides | pkg/query/codec.go:132-158 | of several keys the first kind with an object under it decides alone, and without one the filter is nil |
| FilterCodec.PartsDecode | pkg/query/codec.go:160-196 | which parts of any object become the filter, and which missing parts panic |
| FilterCodec.JunctionDecodes | pkg/query/codec.go:169-175 | a junction decodes exactly when its operator is a string and every item an object that decodes; its members are those, in order |
| FilterCodec.DecodeEncode | pkg/query/filter.go:33-226 | the tree-level inverse, both directions, kind by kind |
| FilterCodec.NormIdempotent | pkg/query/codec.go:179-184 | normalising twice is normalising once |
| FilterCodec.SecondTripIsIdentity | pkg/query/codec.go:198-214 | a decoded filter survives every further trip unchanged |
| Filter.LiftLower | pkg/query/filter.go:271-317 | lifting into the wrapper and AsFilterExpression give the filter back exactly when no junction has a nil slice |
| Filter.FirstFieldDecides | pkg/query/filter.go:297-317 | of several fields of the wrapper the first one present decides alone |
| FilterCodec.WrapperDecode | pkg/query/codec.go:132-196 | the untyped decoder reads the wrapper's JSON as the same filter exactly when no NOT has an operand and no slice is nil |
| Query.OrderRef.UnmarshalText | pkg/query/query.go:66-73 | the name is everything before the first `=`; the direction is only switched on, by `asc` in any case |
| Query.OrderRoundTrip | pkg/query/query.go:62-73 | an order survives its text exactly when its name has no `=` |
| Query.OrderName | pkg/query/query.go:66-73 | the name of an order is its text up to the first `=`, or all of it |
| Query.OrderDirection | pkg/query/query.go:66-73 | only the part between the first and the second `=` decides the direction |
| Query.OrderDirections | pkg/query/query.go:66-73 | a text without direction decodes as descending; otherwise `asc` in any case decides |
| Query.QueryString | pkg/query/query.go:115-130 | the query text is its three clauses in order, each only if present |
| Query.ToParams | pkg/query/codec.go:40-63 | a parameter is set exactly for each part that the query has, to that part's value, order by order |
| Query.FromParams | pkg/query/codec.go:65-99 | offset, size, orders and filter each come from their own parameter, or are 0, 20, none and none without it; only a filter that does not decode makes the whole fail |
| Query.PartsIndependent | pkg/query/codec.go:65-99 | parts whose parameter is the same are the same, whatever the other parameters are |
| Values.ConversionsExact | pkg/query/codec.go:59-95 | the conversions between int and uint64 keep small numbers, are inverse, and exact modulo 2^64 |
| Query.QueryRoundTrip | pkg/query/codec.go:40-99 | a query survives its parameters, for every 64-bit offset, exactly when no order name has `=` and the filter is nil or has no nil part |
| Query.ReceivedIsStable | pkg/query/codec.go:65-99 | a received query is unchanged by further trips |
| Builder.Append | pkg/query/builder.go:26 | append extends the slice and leaves every element below the old length alone, in place or in a new array |
| Builder.Builder.constructor | pkg/query/builder.go:45-50 | a new builder has the default page, no filter and no orders |
| Builder.Builder.OrderBy | pkg/query/builder.go:25-28 | the builder then describes one order more; the filled part of the old array is untouched |
| Builder.Builder.Paging | pkg/query/builder.go:30-34 | the builder then has this page and is otherwise unchanged |
| Builder.Builder.Filter | pkg/query/builder.go:36-39 | the builder then has this filter and is otherwise unchanged |
| Builder.Builder.Build | pkg/query/builder.go:41-43 | the built query is all OrderBy calls in order, the last Paging and the last Filter |
| Builder.Builder.Do | pkg/query/builder.go:25-43 | no call changes any query built before |
| Builder.Builder.Run | pkg/query/builder.go:25-43 | over any run of calls every built query still says, at the end, what the calls before its Build described |
| Paging.ApplyPagingExact | pkg/client/filter.go:94-101 | the slice expression is the page exactly when the offset is 0, the page ends within the list, or the offset is past its end |
| Paging.FullPagesTile | pkg/client/filter.go:94-101 | full pages one after another are the first k*s items |
| Paging.LoadAllInBatch | pkg/client/misc.go:72-90 | whenever the unbounded loop ends: if a call failed, just that failure is the result, at that call; otherwise the result is every page in order, and as long as the last call says |
| Paging.LoopExact | pkg/client/misc.go:72-90 | the loop ends with a result after a number of calls exactly when the answers of those calls say so |
| Paging.ServedFrom | pkg/client/misc.go:73-89 | from any point on, exactly the rest arrives, in order, in exactly the calls needed |
| Paging.LoadsEverything | pkg/client/misc.go:72-90 | against a list with pages and a true total the whole list arrives, once, in max(1, ceil(n/b)) calls and not fewer |
| Paging.LoadedAfterIsMin | pkg/client/misc.go:84-85 | after k calls min(k*b, n) items are loaded |
| Paging.TerminationExact | pkg/client/misc.go:75-89 | the loop ends exactly when the batch is not empty or there is nothing to load |
| Paging.PageLengthAsTotal | pkg/client/misc.go:80-88 | a list that reports the page length as total ends the loop after one page |
| InMemory.ImCrud.constructor | pkg/client/inmemory.go:33-35 | the store starts with the given references, whatever they are |
| InMemory.ImCrud.Select | pkg/client/inmemory.go:38-40 | the filtered references are those whose values the filter accepts, in order; a panic ends it |
| InMemory.ImCrud.List | pkg/client/inmemory.go:37-44 | the page of the accepted items, with the page length as total, nil references past the end, and panics |
| InMemory.ListShows | pkg/client/inmemory.go:37-44 | for every offset and size: the matches from the offset on, one after another, then nil references; refused exactly when the page runs past the store, has a negative size, or the offset is no signed integer |
| InMemory.SelectedInParts | pkg/client/inmemory.go:38-40 | filtering goes item by item, in order |
| InMemory.ImCrud.Create | pkg/client/inmemory.go:46-49 | the reference itself is appended |
| InMemory.ImCrud.Get | pkg/client/inmemory.go:51-58 | the first reference with the key, or nil |
| InMemory.ImCrud.Delete | pkg/client/inmemory.go:60-65 | exactly the items without the key stay, in order |
| InMemory.ImCrud.Update | pkg/client/inmemory.go:67-74 | the first object with the key takes the new value and no other object changes |
| InMemory.ImCrud.Run | pkg/client/inmemory.go:46-74 | any run of calls has the answers and leaves the values of the list specification |
| InMemory.StepRefines | pkg/client/inmemory.go:46-74 | one call on the list is one call on an insertion-ordered map and keeps keys unique |
| InMemory.RunRefines | pkg/client/inmemory.go:46-74 | every run with fresh creates and key-keeping updates has the map's answers and contents |
| InMemory.InMemoryLoad | pkg/client/inmemory.go:37-44 | LoadAllInBatch over this store gives the first page, which is everything exactly when it fits in one batch |
| InMemory.ReportedTotal | pkg/client/inmemory.go:42-43 | the reported total is the number of matches exactly when a first page holds them all, or a later page of that very size starts among them and fits in the store, or there are none and the page starts past the end |
| Texts.SortForgetsEnumeration | pkg/crud/misc.go:96-97 | sorting any enumeration of a map's keys gives the same column sequence |
| Texts.AtMostExact | pkg/crud/misc.go:97 | the order is ascending: a prefix comes first, and else the first difference decides |
| Texts.SortedUnique | pkg/crud/misc.go:97 | a sorted sequence is determined by its elements |
| Statements.CreateInsertOrReplaceQuery | pkg/crud/misc.go:88-119 | text and values depend on the body only, not on the order its keys come in |
| Statements.InsertLists | pkg/crud/misc.go:95-115 | the loop writes the column list, the placeholder list and the values, column by column |
| Statements.CreateUpdateQuery | pkg/crud/misc.go:121-143 | the same for UPDATE |
| Statements.AppendSets | pkg/crud/misc.go:130-139 | the loop writes the SET list and collects the values |
| Statements.InsertParses | pkg/crud/misc.go:88-119 | the INSERT or REPLACE text parses to that statement, with one placeholder for each column |
| Statements.InsertTextExact | pkg/crud/misc.go:88-119 | the INSERT or REPLACE text is that statement exactly when no name holds a back-quote |
| Statements.UpdateTextExact | pkg/crud/misc.go:121-143 | the UPDATE text is that statement exactly when no name holds a back-quote and there is something to set |
| Statements.KeyTextsExact | pkg/crud/misc.go:154-177 | the DELETE, bulk DELETE and SELECT texts are those statements exactly when no name holds a back-quote |
| Statements.InsertCarriesBody | pkg/crud/misc.go:80-119 | the parsed columns zipped with the values are the body; placeholders and values are equally many |
| Statements.UpdateCarriesBody | pkg/crud/misc.go:121-143 | the same for UPDATE, keyed by the id column; an empty body makes no statement |
| Statements.DeleteParses | pkg/crud/misc.go:154-159 | the single DELETE text is a delete by id with LIMIT 1 |
| Statements.MultiDeleteParses | pkg/crud/misc.go:163-168 | the bulk DELETE text is an IN list with exactly n placeholders |
| Statements.SelectParses | pkg/crud/misc.go:170-177 | the single SELECT text is a select by id with LIMIT 1 |
| DeleteLaws.LimitOneExact | pkg/crud/misc.go:179-188 | LIMIT 1 removes everything that matches exactly when at most one row does |
| Crud.Keys | pkg/crud/misc.go:96 | every key once, in some order |
| Crud.Impl.RemapBody | pkg/crud/impl.go:300-331 | the map itself is rewritten: a value changes only if it is a string in a column known to be a date or a blob, and then to what the first parser that accepts it gives |
| Crud.RemapKeeps | pkg/crud/impl.go:300-331 | a body without such values stays as it is |
| Crud.IdColumnExact | pkg/types/types.go:66-72 | the id column is the configured one, or `id` |
| Crud.Impl.Get | pkg/crud/impl.go:266-271 | the read guard, then the item by id |
| Crud.Impl.FetchOneItem | pkg/crud/impl.go:97-123 | the row with the id, or none, as the database answers the written SELECT |
| Crud.Impl.Delete | pkg/crud/impl.go:273-281 | refused without permission; otherwise the table is what the written statement makes of it |
| Crud.Impl.Update | pkg/crud/impl.go:283-298 | likewise for UPDATE with the converted body, followed by reading the item back |
| Crud.Impl.Create | pkg/crud/impl.go:333-356 | likewise for INSERT; a missing last insert id is an error although the row stays |
| Crud.Impl.MultiDelete | pkg/crud/impl.go:358-373 | no id is an error, one id is a single delete, more are one IN statement |
| Crud.Impl.UpdateIn | pkg/crud/impl.go:388-402 | one object of a bulk update, inside the transaction |
| Crud.Impl.CreateIn | pkg/crud/impl.go:419-441 | one object of a bulk create, inside the transaction |
| Crud.Impl.MultiUpdate | pkg/crud/impl.go:375-404 | the committed table is the fold of the single updates, or unchanged on error, panic or failed commit |
| Crud.Impl.MultiCreate | pkg/crud/impl.go:406-444 | the committed table is the fold of the single inserts or replaces, or unchanged |
| BulkLaws.CreateMeans | pkg/crud/impl.go:346-350 | the written INSERT or REPLACE inserts exactly the converted body; a list or an object in it is refused by the driver |
| BulkLaws.CreateExact | pkg/crud/impl.go:333-350 | a create goes through exactly when no value is a list or an object, the key is present, and it is fresh or replaced; the table then has the row at its end |
| BulkLaws.UpdateMeans | pkg/crud/impl.go:291-296 | the written UPDATE overrides at most the one row with the id; an empty body is a syntax error |
| Crud.FetchMeans | pkg/crud/impl.go:97-123 | the written SELECT returns the row with the key |
| BulkLaws.BulkCreateAllOrNothing | pkg/crud/impl.go:406-444 | a bulk create changes the table exactly when permission, begin, every statement and commit succeed, whatever position fails otherwise |
| BulkLaws.BulkUpdateAllOrNothing | pkg/crud/impl.go:375-404 | the same for a bulk update, which panics exactly when it reaches an id that is no string |
| BulkLaws.BulkInsertExact | pkg/crud/impl.go:419-443 | bulk INSERT goes through exactly when no value is a list or an object and all keys are present, fresh and distinct, and appends exactly the objects |
| BulkLaws.BulkReplaceExact | pkg/crud/impl.go:428-429 | bulk REPLACE goes through exactly when no value is a list or an object and all keys are present; each key then holds its last object or what was there |
| BulkLaws.BulkReplaceKeys | pkg/crud/impl.go:428-429 | after bulk REPLACE the keys are the old ones and the objects' |
| UpdateLaws.BulkUpdateExact | pkg/crud/impl.go:388-403 | when no conversion rewrites the id column, bulk UPDATE goes through exactly when every id is a string and no value is a list or an object; rows are overridden by their objects in order, others ignored |
| UpdateLaws.UpdateObjectExact | pkg/crud/impl.go:388-402 | one object of a bulk update, also when a conversion rewrites its id column: when it goes through and what every key then reads as |
| UpdateLaws.BulkUpdatePanicExact | pkg/crud/impl.go:390 | it panics exactly when it reaches an object whose id is missing or not a string |
| DeleteLaws.MultiDeleteExact | pkg/crud/impl.go:358-373 | bulk DELETE is the single deletes in order exactly when there is one id, or no id is a list or an object and no row reads like an id that is neither string nor number |
| DeleteLaws.MultiDeleteAlways | pkg/crud/impl.go:358-373 | over the ids alone: so on every table exactly when there is one id, or none is a list or an object and each reads like a string or a number among them |
| DeleteLaws.MultiDeleteAnyOrder | pkg/crud/impl.go:358-373 | for string and number ids, order and repetitions do not matter |
| WriteRuns.Perform | pkg/crud/impl.go:273-444 | each call of the CRUD layer leaves what the step function says |
| WriteRuns.PerformAll | pkg/crud/impl.go:273-444 | so does every run of calls |
| WriteRuns.NoPermissionNoChange | pkg/crud/impl.go:274-286 | with create, update and delete off no run changes the table |
| WriteRuns.RunKeepsUnique | pkg/crud/impl.go:273-444 | no run of calls, under any permissions, makes two rows share a key |
| WriteRuns.IdsNeverShrink | pkg/crud/impl.go:333-444 | with delete off and updates that leave ids alone no id ever disappears, not even by REPLACE |
| WriteRuns.UpdateReadBack | pkg/crud/impl.go:283-298 | an update goes through exactly when there is something to set, nothing of it a list or an object, and the row keeps its key or takes a free one; every key then reads as expected, and the read-back by the old id finds the item exactly when there was one and it kept that id |
| WriteRuns.UpdateThenFetch | pkg/crud/impl.go:283-298 | on any table, an update whose body leaves the id column out reads back as the old row overridden by the body; other items are unchanged |
| WriteRuns.CreateReadBack | pkg/crud/impl.go:350-355 | Create's read-back by the reported last insert id gives the created item exactly when the item has that id |
| WriteRuns.ReadPermissionExact | pkg/crud/impl.go:266-298 | read permission decides what Get shows and nothing else: Update and Create show a row exactly when they are allowed, go through, and their read-back finds it |
| WriteRuns.CreateThenFetch | pkg/crud/impl.go:333-356 | a created item reads back as its body; other items are unchanged |
| WriteRuns.WrittenAsGiven | pkg/crud/impl.go:283-356 | where no column of the body is converted, a created item reads back as the body itself and an updated one as its old row overridden by the body itself |
| ListItems.List | pkg/crud/impl.go:125-162 | without read permission an error, with no query the default one, without paging no answer; otherwise the count, the page only if the count is positive, and the errors |
| ListLaws.ListedBlind | pkg/crud/impl.go:126-128 | without read permission the answer is the same error for any two tables and queries |
| ListLaws.ListPermissionExact | pkg/crud/impl.go:125-162 | a request for a page with a readable filter is answered exactly with read permission |
| ListLaws.ListedByDefault | pkg/crud/impl.go:135-137 | no query gives the first twenty rows, unfiltered, and the number of all |
| ListLaws.ListedAll | pkg/crud/impl.go:125-162 | without a filter every row is found |
| ListItems.FetchRows | pkg/crud/impl.go:203-229 | moving the cursor until it is exhausted collects every row of the result set once, in its order, and no row that is not in the table; a refused query is an error |
| ListTexts.CountMeans | pkg/crud/impl.go:138-143 | for every filter, the COUNT text counts what the condition in the filter's text selects, and is refused exactly when there is none |
| ListTexts.RowsMean | pkg/crud/impl.go:151 | for every filter with a condition whose text does not end inside a comment, the SELECT text selects by that same condition, in the query's order and page |
| ListTexts.RowsMeanOpen | pkg/crud/impl.go:151 | if it does end inside a comment, the SELECT text selects by the same condition, without order and page |
| ListTexts.SameWhere | pkg/crud/impl.go:138-151 | for every filter text and page, and all order names unless a line break in one ends a comment of the filter: when both texts are understood they name the same table and carry the same condition |
| ListTexts.PrintedRowsMean | pkg/crud/impl.go:151 | for a filter of well-formed parts the condition of the SELECT text is the filter's tree, and without one the text is refused |
| ListItems.OffsetExact | pkg/crud/impl.go:160 | the reported offset, a float32, is the nearest that 24 binary digits hold, and exact exactly when they hold the requested one |
| ListLaws.ListedMeans | pkg/crud/impl.go:125-162 | for every filter: the total is the number of selected rows for every page; the data is that page of them, or all of them if the filter's text ends inside a comment; errors are exactly a text that is no condition or a negative size with rows to return |
| ListLaws.ListedSound | pkg/crud/impl.go:125-162 | for every filter and all order names, unless a line break in one ends a comment of the filter: an answer has the number of selected rows as its total and only selected rows as its data |
| ListLaws.PrintedListedMeans | pkg/crud/impl.go:125-162 | for a filter of well-formed parts the selected rows are those on which the filter's tree is true |
| ListLaws.PagesAddUp | pkg/crud/impl.go:138-161 | for every filter with a condition that does not end inside a comment, pages of a fixed size put together are the selected rows |
| ListLaws.PagesAddUpExact | pkg/crud/impl.go:138-161 | the lengths of enough pages add up to the total exactly when the filter's text does not end inside a comment, or nothing is found, or there is one page |
| ListLaws.RemoteLoad | pkg/client/misc.go:72-90 | for every filter that arrives with a condition and does not end inside a comment, LoadAllInBatch through request parameters, COUNT and SELECT returns every selected row once, in order, in max(1, ceil(n/b)) calls |
| ListLaws.RemoteLoadOpen | pkg/client/misc.go:72-90 | if it does end inside a comment, every selected row arrives once with the first call, which is the last |
| ListLaws.RemoteLoadIsMemoryFilter | pkg/client/filter.go:76-92 | loading everything remotely gives exactly the rows that filtering the same table in memory gives |

## Left out

- HTTP handlers, generated API code, CORS, telemetry, logging, configuration defaults, connection pools, error-to-status mapping and named queries: plumbing, or only easy members.
- JSON bytes, escaping and lexing: filters and parameters are JSON trees; `DecodeFilter` fails only on a tree that is no object and not null.
- `%v` of numbers: a number is its text, so two texts of one number count as different values, and Go's int and float64 are not told apart by `cmp.Equal`.
- Filter values that are null, lists or objects print as `<nil>`, `[...]` and `map[...]`: their text is lexed like any other, and is never the filter's own condition.
- SQL outside the modelled grammar is refused by the modelled database: conditions compare a plain column with literals, so literals (`1 = '1'`, or the `1 AND '1'` of pkg/query/query.go:44), arithmetic, functions, qualified or non-ASCII names, double-quoted text, `/*! */` and backslash escapes are not read, although MySQL reads them.
- MySQL conditions: `=`, `<>` and `!=` between strings are exact equality, as under a binary collation; orderings, patterns and type coercion are a parameter of the evaluator; keywords are upper-case as the bridge writes them; column names are compared exactly although MySQL ignores their case.
- MySQL tables: every constraint beyond the key is the parameter `reject`; keys are compared by text; REPLACE removes only rows with the same key, so `IdsNeverShrink` needs the key to be the table's one unique index; auto-increment (a row without key is refused), foreign keys and isolation between clients are not modelled.
- ORDER BY may put rows in any order, but puts the same rows in the same order at every call, which paging rests on.
- Parsing of dates and base64 in `remapValue` is a parameter; the metadata cache is an optional map that does not change during a call.
- Row scanning (`mapEntity`, `mapValue`) depends on driver types; fetched rows are the table's rows.
- The order in which several errors are joined and their messages; only error, panic and success are told apart in bulk writes.
- The objects of one bulk call are distinct maps, as decoding a request makes them.
- Item types of the in-memory store are rows, with property extraction by lookup; callers that later write into a slice they handed to the store are not modelled.
- `excludeProps`, `onlyProps`, `Exists`, `ListEntities` and `extractIds`: easy on their own.
