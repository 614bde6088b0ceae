# Thing ORM: a verified model of its caches

Thing is a Go ORM whose reads may be answered by a model cache and a query cache. Writes do not clear the
query cache: an inverted index and an evaluator for WHERE clauses pick the entries a write can have affected.
The promise is that nobody can tell, that is, a read through the caches equals the same read against the
database. This project models that promise as a sequential state machine and proves it for every run, together
with what it rests on (the WHERE compiler, the index, the paging loops) and three smaller parts: IN expansion
and placeholder rebinding, the schema diff, and the lock behind `Incr`.

The main theorem is `Runs.Run` (and `Runs.RunFromStart`, from empty caches): for every sequence of creates,
updates, soft deletes, deletes, batch writes, lookups, fetches, counts, explicit invalidations, expiries and
clean-ups, the cached system gives the answers of the system without caches and leaves the same data. For the
default `KeepItem` the answers are determined (`Runs.RunAnswersAreUnique`), so there is nothing a cache could
show. The theorem goes through the imperative model of the source: classes for the ORM handle, the query object,
the index and the predicate parser, with the source's loops, batch sizes (100, 300 x 20, 500) and the limit of
200 cached ids.

## Layout

| file | module | what it holds |
|---|---|---|
| Values.dfy | Values, Text | typed values, rows, string helpers |
| WhereSyntax.dfy, WhereParser.dfy | WhereLexer, WhereParser | tokenizer and recursive-descent parser, as loops and as functions |
| WhereGrammar.dfy | WhereGrammar | the grammar, stated without the parser; soundness, completeness, printing |
| WhereWords.dfy, WhereText.dfy, WhereNames.dfy | same names | how words and quoted names are read; predicates as text, read back by the compiler; which column a name stands for |
| WhereLayout.dfy | WhereLayout | the lexical grammar, stated without the tokenizer; the compiler as a decision of the language, from the text on |
| WhereMatch.dfy | WhereMatch | evaluation, with its error outcome, and its locality |
| WhereMeaning.dfy, WhereTruth.dfy | WhereMeaning, WhereTruth | the truth of a predicate on a row, stated without the matcher; the matcher computes it |
| WhereSoftDelete.dfy, WhereTrimming.dfy, WhereWrapping.dfy, WhereEscapes.dfy | same names | the soft-delete wrapping, exactly when this parser reads it as meant, and clauses on which it does not |
| OrderClause.dfy, OrderFields.dfy | OrderClause, OrderFields | what an ORDER BY text sorts on, stated on the text; the order columns found are those |
| QueryDependencies.dfy, CacheIndex.dfy | QueryDependencies, CacheIndexing | what a query is indexed under; the nine maps |
| Coherence.dfy | Coherence | the database's answers, the hypotheses, the invariant |
| Invalidation.dfy, InvalidationLimits.dfy, InvalidationPhases.dfy | same names | which entries a write drops, why that is right, when it is not, and the four loops |
| ReferenceDatabase.dfy | ReferenceDatabase | a database that meets the hypotheses |
| ModelCache.dfy, Saving.dfy, Thing.dfy | ModelCache, Saving, ThingOrm | lookups and writes |
| Cacheless.dfy | Cacheless | what writes do to the data, column by column: the system without caches |
| Paging.dfy, CachedResult.dfy | Paging, Queries | list fill, counting, paging |
| Runs.dfy | Runs | whole runs |
| SqlBuilder.dfy, Rebind.dfy | SqlBuilder, Rebinding | IN expansion, numbered placeholders |
| SchemaDiff.dfy | SchemaDiff | ALTER statements and their convergence |
| LocalLock.dfy | LocalLock | concurrent `Incr` |

## Hypotheses of the coherence theorem

The code relies on these, and they are the premises of the theorem (`Faithful` of the database as such, `WfQuery`
of each query a run uses, `StepOk` of each step). `ReferenceDatabase.ReferenceIsFaithful` and
`ReferenceDatabase.ReferenceCovers` show that they can be met together, for every model and every clause the
matcher understands.

- Cache and database calls do not fail outside the modelled batch faults, and locks are acquired. Each public
  operation is one atomic step.
- Key hashing is injective: a key is its kind, its table and its parameters. One table is modelled.
- Of each query that is used: on a row where every condition reached from the left is decided, the database gives
  the truth value of its WHERE clause (`WhereMeaning.IsTrue`, `WhereMeaning.IsStuck`), and the clause reads no
  column it does not mention. `InvalidationLimits.KeptCountIsRightIff` shows that this is needed. Of other clauses
  nothing is assumed but that the database understands `"deleted" = false`.
- ORDER BY is a function of its text, the ids and the columns some comma part of the text sorts on
  (`OrderClause.Sorts`); any tracked column, when some part is not a column with an optional direction
  (`OrderClause.IsUnclear`).
- WHERE and ORDER identifiers are exact names of columns not tagged `diff:"-"`. A WHERE clause that is not empty
  is not only white space, and is a condition of its own, so that the database reads `(W) AND "deleted" = false`
  as a conjunction; for clauses the matcher decides this follows from the grammar
  (`ReferenceDatabase.FilterFollowsFromGrammar`).
- An update names an existing id, does not alter `diff:"-"` columns, and is `Covered`. The value passed to a
  delete equals the stored row.
- Each read of a run uses a fresh query object, because its memo outlives writes.

Nothing is assumed about the number of matching rows. For a model with a custom `KeepItem` and more than 6000 of
them, counts taken from a short list may miss as many visible rows as there are matches past the 6000th
(`Coherence.Shortfall`), and that is what is promised.

## What the code does not do

- A plain restore of a soft-deleted row leaves stale entries: selective invalidation is right for an update,
  whatever is cached, exactly when the update is `Covered` (`InvalidationLimits.UpdateIsCoherentIffCovered`). The
  same guard fails when a custom `KeepItem` ignores the deleted flag and a row is soft-deleted.
- Comparisons are two-valued: `x <> 5` holds of a nil column (`WhereMatch.NullIsUnequal`), where SQL drops the row. A
  cached count for `x <> 5` is kept when x goes from NULL to 3, and is stale. Queries on which database and matcher
  differ are outside the theorem: a count kept because the matcher sees no change is right exactly when the
  database sees none (`InvalidationLimits.KeptCountIsRightIff`).
- An update of an id that does not exist caches a row that is not stored, and an update that alters a `diff:"-"`
  column caches what was not written (`Saving.UpdateCachesStoredRow`, an equivalence).
- An identifier that names a Go field instead of a column is decided by a column that `Fields` does not report
  (`WhereMatch.LocalIffColumnName`, an equivalence).
- The in-memory cache reports the NoneResult marker of the model cache as an error, so the marker saves no query
  there (cache.go:782-882). The model has both behaviours behind the flag `noneAware`; the results are the same.
- A custom `KeepItem` with more than 6000 matching rows: a short list lacks exactly the visible rows past the
  6000th (`Paging.ShortListLacks`).
- A slice of one slice given to `IN (?)` is expanded again by a second expansion (`SqlBuilder.ExpandTwice`), and a
  digit directly behind a placeholder or a dollar sign changes the statement that PostgreSQL reads
  (`Rebinding.PreparedKeepsMeaning`); both are equivalences.
- A model index named like SQLite's own indexes is created anew by every diff (`SchemaDiff.GenerateAlterTableSQL`).
- A release whose context is cancelled leaves the lock taken for good (`LocalLock.LeakIsForever`).

## The soft-delete wrapping and white space

The program wraps a clause W as `(W) AND "deleted" = false` and gives the text to the database only; its own parser
reads W unwrapped. That the database reads the wrapped text as a conjunction is a hypothesis (`WfQuery`), and for
clauses the matcher decides it follows from the grammar. The lemmas below say when the program's parser would
read the wrapped text so, which is what the grammar argument needs. A vertical tab or form feed around W is trimmed
when W is parsed alone, and is a letter once W is wrapped: `WhereTrimming.FilterIffTerm` gives the exact condition for
every parseable clause, and `WhereWrapping.FilterIffSpaces` says which white space meets it, for all clauses that do
not start with a quoted name containing word-ending characters. With such a name both happen:
`WhereEscapes.PiecesMayAgree` is a clause whose wrapping this parser would read rightly, `WhereEscapes.OrEscapes` one
whose wrapping it would read as a disjunction with the filter on one side only. No deleted row comes back because
of it, since this parser never sees wrapped text.

## Model

| member | source | states |
|---|---|---|
| Runs.Run | cache.go:166-434 | transparency over whole runs: from any coherent state, every answer of any sequence of steps is one the system without caches gives, the data end up the same, and every cache and the index stay coherent |
| Runs.RunFromStart | query.go:59-69 | the same from empty caches over any table: the state every process starts in |
| Runs.Perform | crud.go:576-781 | one public operation of the cached system changes the data as the system without caches does and gives its answer, keeping the invariant |
| Runs.PerformRows | query.go:514-725 | rows through a fresh query object: stored, kept, matching, and exactly the page the list and the SQL result give, for every model; no data change |
| Runs.PerformCount | query.go:99-275 | counts through a fresh query object are right for the table as it stands; no data change |
| Runs.PerformSave | crud.go:583-675 | save, soft delete and batch save change the data as stated column by column without the code that saves, and return the stamped row |
| Runs.PerformDelete | crud.go:678-747 | delete and batch delete act on the data as without caches |
| Runs.AnswersAreUnique | query.go:514-667 | under the default KeepItem the answer of a step is determined by the data |
| Runs.RunAnswersAreUnique | query.go:514-667 | under the default KeepItem the answers of a whole run are determined by the data |
| Invalidation.WriteKeepsQueries | cache.go:166-434 | completeness for one write: every live list, count and precise count that is not deleted is right for the new table, and as exact as it was |
| Invalidation.DropsExactly | cache.go:188-432 | for any write, where the clause is decided on the rows before and after, a live key is deleted if and only if the new row is hidden, the truth of the clause flips, or it holds and a declared KeepItem column, or for a list a column it is sorted on, changed |
| Invalidation.UndecidedDropsConcerned | cache.go:235-286 | where the clause is not decided, the key is deleted if and only if the write may concern it: no clause, one not understood, or a dependency on a column that changed (any tracked one, if rows come, go or change visibility) |
| Invalidation.SelectedMeans | internal/cache/index.go:383-470 | the candidates, stated on the texts: an empty clause, a clause or order that is not understood, or a candidate column the clause mentions or the list is sorted on |
| Invalidation.UnselectedUnaffected | internal/cache/index.go:383-470 | a query outside the candidate keys keeps its members and, for lists, its order as the ORDER BY text defines it |
| Invalidation.NeededIsSelected | internal/cache/index.go:383-470 | every key whose match status or order can change is among the candidates |
| Invalidation.UndroppedUnaffected | cache.go:223-392 | a candidate that the gathering and computing phases leave alone is unaffected by the write |
| InvalidationLimits.UpdateIsCoherentIffCovered | cache.go:189-210 | selective invalidation keeps every right set of entries right after an update exactly when the new row is hidden, a declared KeepItem column changed, or visibility is what it was |
| InvalidationLimits.UncoveredGoesStale | cache.go:291-300 | the failing family: after any uncovered update some cached count of the table is stale |
| InvalidationLimits.DefaultCoverage | cache.go:519-531 | with the default KeepItem the one uncovered update is a restore that changes no declared column |
| InvalidationLimits.KeptCountIsRightIff | cache.go:223-320 | where the truth value of the clause does not change the cached count is kept, and it is right exactly when the database sees no change either: agreement is needed of every query |
| InvalidationPhases.InvalidateAffectedQueryCaches | cache.go:166-434 | the four phases together delete exactly the keys of the rule stated key by key |
| InvalidationPhases.GatherTasks | cache.go:223-320 | keys the matcher cannot decide are deleted at once, the others get exactly the change they need |
| InvalidationPhases.GatherOne | cache.go:235-318 | the decision for one candidate key, from the matches before and after and the order and KeepItem columns |
| InvalidationPhases.ReadLists | cache.go:322-350 | the cached ids of every list to be changed |
| InvalidationPhases.ComputeWrites | cache.go:352-392 | an added row deletes a list unless it is listed already, a removed or reordered one always; counts go on either |
| InvalidationPhases.DeleteKeys | cache.go:394-432 | the marked keys and no others leave the query cache |
| Coherence.EntryUnaffected | cache.go:489-569 | when a query's members, visibility and (for lists) order are unchanged, its cached entry stays right |
| Coherence.SqlSplits | query.go:150-156 | the clause that is sent holds of a row exactly when the query's own clause does and the row is not deleted, unless deleted rows are asked for |
| Coherence.VerdictDecides | internal/cache/query_match.go:47-73 | a verdict of the matcher is the database's answer on that row, if the database gives the clause's truth value |
| Coherence.QueryMeans | internal/cache/query_match.go:41-73 | on a query and a row the matcher fails exactly if the clause is not understood or gets stuck, and gives its truth value otherwise; a blank clause holds |
| Coherence.FieldsAreTracked | internal/cache/index.go:84-162 | the columns a covered query is indexed under are tracked |
| OrderFields.OrderFieldsMean | internal/cache/index.go:641-696 | for every text: a column is found exactly if some comma part of the text sorts on it, and the clause is uncertain exactly if it is not blank and some part is not a name with an optional direction |
| OrderFields.CollectOrderFields | internal/cache/index.go:641-678 | the loop over the comma parts yields exactly the columns the text sorts on, and reports exactly whether some part is of another form |
| OrderFields.PlainListIsUnderstood | internal/cache/index.go:641-678 | a list of plain names, each with no direction, ASC or DESC in any case, with any white space, gives exactly those names and is certain |
| OrderFields.PartMeans | internal/cache/index.go:649-676 | one comma part: the column its first word names, and whether nothing but a direction follows |
| OrderFields.NormalizeFinds | internal/cache/index.go:680-696 | a word names a column exactly by its last dot-separated piece without quotes and brackets, and names none if it holds an operator or parenthesis |
| Coherence.HoldsIsLocal | internal/cache/query_predicate.go:78-101 | rows that agree on the columns of `Fields` agree on the query |
| ReferenceDatabase.ReferenceIsFaithful | internal/cache/query_predicate.go:78-88 | the hypotheses on the database are satisfiable: one that gives the truth value of every clause it can decide meets them |
| ReferenceDatabase.ReferenceCovers | internal/cache/query_predicate.go:78-101 | and so are those on queries, together with them: every understood clause over tracked columns, trimmed of nothing but blanks, is covered |
| ReferenceDatabase.FilterFollowsFromGrammar | query.go:323-330 | where a clause is decided, the soft-delete filter works in any database that gives the truth value of the clause and of its wrapping |
| WhereGrammar.ParserDecidesGrammar | internal/cache/query_predicate.go:404-557 | the parser accepts exactly the derivable token lists whose placeholders number the arguments, and returns their meaning |
| WhereGrammar.ParserSound | internal/cache/query_predicate.go:408-542 | an accepted token list is derivable in the grammar with AND under OR, both nested to the left, and the result is what it denotes |
| WhereGrammar.ParserComplete | internal/cache/query_predicate.go:408-542 | every derivable token list is accepted with its meaning |
| WhereGrammar.GrammarUnambiguous | internal/cache/query_predicate.go:408-450 | two derivations of one token list denote the same predicate, placeholders included |
| WhereGrammar.PrintThenParse | internal/cache/query_predicate.go:404-557 | printing a well-formed predicate canonically and parsing the tokens gives it back |
| WhereText.TextThenParse | internal/cache/query_predicate.go:47-76 | the round trip through text, tokenizer included: the text of a well-formed predicate compiles to it, for Boolean, integer, string and NULL literals and names without a closing bracket |
| WhereText.ParseThenText | internal/cache/query_predicate.go:47-76 | compiling, printing and compiling again changes nothing, for predicates without floats and without a closing bracket in a name |
| WhereText.TokenReads | internal/cache/query_predicate.go:258-402 | every writable token is read back from its text: keywords, symbols, signed 64-bit integers, strings with doubled quotes, bracketed names |
| WhereLayout.CompilerDecidesLanguage | internal/cache/query_predicate.go:47-76 | from the text on, for every clause: it compiles to a predicate exactly if the trimmed text lays out the tokens of a derivation that denotes it and has as many placeholders as there are arguments |
| WhereLayout.LexerDecidesLayout | internal/cache/query_predicate.go:258-306 | the tokenizer finds exactly the token lists that are laid out in the text, each token in one of its spellings, not going on into what follows it, with any blanks around |
| WhereLayout.WordMeans | internal/cache/query_predicate.go:369-395 | every word stands for exactly one token: a keyword in any mixture of cases, else an integer of 64 bits, else a real number, else a name |
| WhereLayout.KeywordsMean | internal/cache/query_predicate.go:369-385 | AND, OR, NOT, LIKE, IN, TRUE, FALSE and NULL are read exactly from words with those letters, each in either case |
| WhereLayout.SpellingReads | internal/cache/query_predicate.go:258-367 | each spelling of a token is read as that token, whatever may follow it |
| WhereLayout.ReadIsSpelling | internal/cache/query_predicate.go:258-367 | and whatever is read as a token is one of its spellings |
| WhereLayout.AnySpellingCompiles | internal/cache/query_predicate.go:47-76 | the text of a well-formed predicate compiles to it in whatever way its tokens are spelled, so with each keyword in any mixture of cases |
| WhereLayout.KeywordSpells | internal/cache/query_predicate.go:369-385 | a keyword in any mixture of cases is such a spelling |
| WhereLayout.TextSpells | internal/cache/query_predicate.go:258-402 | so is the text a token is printed as |
| WhereNames.NameStandsForColumn | internal/cache/query_predicate.go:559-571 | a plain name stands for that column, bare, quoted or in brackets, behind any qualification or none |
| WhereGrammar.MeaningNumbered | internal/cache/query_predicate.go:526-542 | placeholders are numbered left to right without gaps |
| WhereGrammar.ParsedWhereIsWellFormed | internal/cache/query_predicate.go:61-70 | in a parsed clause the placeholder indices read left to right are exactly 0 to the number of arguments less one, and every comparison has the operands its operator needs |
| WhereGrammar.ParsedIsWellFormed | internal/cache/query_predicate.go:493-542 | the same for any token list the parser accepts |
| WhereMatch.ParsedOperandsResolve | internal/cache/query_predicate.go:208-221 | no comparison of a parsed clause refers to an argument that was not given |
| WhereTruth.MatchMeans | internal/cache/query_predicate.go:112-172 | for every predicate, arguments and row: the matcher fails exactly if, reading from the left no further than needed, it reaches a condition that is not decided, and otherwise gives the truth value, AND being conjunction and OR disjunction |
| WhereTruth.ConditionMeans | internal/cache/query_predicate.go:144-172 | one condition: decided exactly if its operands are given, its name is known and the comparison makes sense for the types; a written IN list holds if some value equals the column, NOT IN is its opposite |
| WhereTruth.CompareMeans | internal/cache/query_match.go:75-155 | each operator on typed values: equality with nil, pointers and conversions, order, LIKE, and IN over a slice, with their opposites |
| WhereTruth.EqualsMeans | internal/cache/query_match.go:190-214 | nil equals nil alone; values are equal as they are or after the one conversion between integer, real and text |
| WhereTruth.OrderMeans | internal/cache/query_match.go:216-324 | `<`, `<=`, `>`, `>=` are the order of integers, times and reals, and dictionary order on text; an integer column is compared with the whole part of a real |
| WhereTruth.PlainPatterns | internal/cache/query_match.go:457-484 | LIKE `p%`, `%p`, `%p%` and `p` ask for a prefix, a suffix, a part and the text itself |
| WhereTruth.SliceMeans | internal/cache/query_match.go:326-400 | IN over a slice: decided by an equal element, or by elements that all compare |
| WhereTruth.FieldsMean | internal/cache/query_predicate.go:134-176 | the columns collected are exactly those some condition is about |
| WhereTruth.ExactMatchesMean | internal/cache/query_predicate.go:178-206 | the values recorded for a column are exactly those some condition compares it with by `=` or IN |
| WhereMatch.MatchIsLocal | internal/cache/query_predicate.go:112-172 | the outcome of a match, errors included, depends only on the columns in `Fields` |
| WhereMatch.LocalIffColumnName | internal/cache/query_match.go:75-95 | a comparison, whatever its arguments, is decided by its own identifier exactly when that does not resolve through a Go field name |
| WhereMatch.CheckInOperator | internal/cache/query_match.go:326-400 | the loop decides IN as defined without it: holds if some element equals the field, possibly after conversion; else an error if one could not be converted; pointer columns and untyped slices included, and the order of the elements does not matter |
| WhereMatch.NullIsUnequal | internal/cache/query_match.go:97-108 | a nil column differs from every value that is not nil, where SQL would not decide |
| WhereMatch.ExactMatchesWithinFields | internal/cache/query_predicate.go:178-206 | exact-match values are recorded only for columns the clause names, and never an empty list |
| WhereLexer.TokenizeWhere | internal/cache/query_predicate.go:258-306 | the tokenizer loop ends on every input with exactly the tokens of the text and EOF, or an error |
| WhereLexer.ScanStringLiteral | internal/cache/query_predicate.go:340-355 | the text of a quoted literal, doubled quotes undone, and where it ends |
| WhereLexer.ScanQuotedIdentifier | internal/cache/query_predicate.go:324-338 | a quoted identifier up to its closing quote, or an error when there is none |
| WhereLexer.ScanWord | internal/cache/query_predicate.go:357-367 | the longest run of word characters |
| WhereParser.PredicateParser.ParseOr | internal/cache/query_predicate.go:408-421 | the cursor version yields the value, the next position and the next argument of the functional parser |
| WhereParser.PredicateParser.ParseAnd | internal/cache/query_predicate.go:423-436 | the same for AND |
| WhereParser.PredicateParser.ParsePrimary | internal/cache/query_predicate.go:438-450 | the same for parentheses and comparisons |
| WhereParser.PredicateParser.ParseCondition | internal/cache/query_predicate.go:452-473 | the same for a comparison |
| WhereParser.PredicateParser.ParseOperator | internal/cache/query_predicate.go:475-491 | the same for operators, NOT LIKE and NOT IN included |
| WhereParser.PredicateParser.ParseOperands | internal/cache/query_predicate.go:493-524 | the same for operand lists |
| WhereParser.PredicateParser.ParseOperand | internal/cache/query_predicate.go:526-542 | the same for a placeholder or a literal |
| WhereParser.ParseQueryPredicate | internal/cache/query_predicate.go:47-76 | the whole compiler: trimmed text, tokens, tree, nothing left over, as many placeholders as arguments |
| WhereSoftDelete.FilterIsConjunction | query.go:150-156 | a parseable clause wrapped in `(W) AND "deleted" = false` parses with the same arguments to the conjunction, so that a top-level OR stays inside, if trimming takes off nothing but blanks |
| WhereSoftDelete.FilterAloneParses | query.go:323-330 | without a clause of its own the query parses to the filter |
| WhereSoftDelete.LexThen | internal/cache/query_predicate.go:258-306 | what follows a blank or a closing parenthesis cannot change the tokens before it |
| WhereTrimming.FilterIffTerm | query.go:323-330 | for every parseable clause: to this parser the wrapped clause is the conjunction with the filter exactly when the clause as it stands, in parentheses, is a term of the grammar that denotes it |
| WhereTrimming.WrappedLexes | query.go:323-330 | a wrapped clause that parses has the tokens of the clause between the parenthesis and the filter: quotes left open by the clause are never closed by the filter |
| WhereWrapping.FilterIffSpaces | query.go:150-156 | for every parseable clause whose first name, if quoted, has no word-ending character: the wrapping is right exactly when no vertical tab or form feed is trimmed off the end, and those in front form one run directly before a name that is one word |
| WhereWrapping.TrailingVerticalFails | query.go:323-330 | to this parser, a wrapped clause with a vertical tab or form feed at the end of the clause would not parse |
| WhereWrapping.GapFails | query.go:323-330 | nor would one with such a character in front of a blank or a parenthesis |
| WhereEscapes.WrappingCanFail | query.go:323-330 | a concrete clause that this parser accepts and whose wrapping it would not |
| WhereEscapes.OrEscapes | query.go:323-330 | a concrete clause whose wrapping, if this tokenizer read it, would be a disjunction with the filter on one side only; the program gives that text to the database alone |
| WhereEscapes.PiecesMayAgree | query.go:323-330 | a concrete clause whose wrapping this tokenizer would read in pieces and still rightly, so the condition on quoted names cannot be an equivalence |
| QueryDependencies.ExactFieldsWithinIndexFields | internal/cache/index.go:84-162 | every column of the value index is in the field index, for parsed and for heuristically split clauses |
| CacheIndexing.CacheIndex.RegisterQuery | internal/cache/index.go:84-175 | the nine maps stay the projection of the live registrations, to which one is added |
| CacheIndexing.CacheIndex.DeregisterQuery | internal/cache/index.go:493-577 | the nine maps stay the projection of the live registrations, from which the key is removed, with no empty inner map left |
| CacheIndexing.CacheIndex.GetInvalidationContext | internal/cache/index.go:383-470 | the candidates are exactly the keys of the table with an empty clause, an uncertain dependency, or a candidate column, each with what it was registered for |
| CacheIndexing.CacheIndex.GetQueryKeysForTable | internal/cache/index.go:292-310 | exactly the keys registered for the table |
| CacheIndexing.CacheIndex.GetAllRegisteredKeys | internal/cache/index.go:481-491 | exactly the registered keys |
| CacheIndexing.CacheIndex.constructor | internal/cache/index.go:66-82 | the empty index stands for no registration |
| CacheIndexing.ProjectionIsUnique | internal/cache/index.go:29-64 | history does not matter: equal registrations give equal maps, all nine |
| CacheIndexing.RegisterThenDeregister | internal/cache/index.go:493-577 | deregistering a freshly registered key restores all nine maps exactly |
| CacheIndexing.CandidatesAreSelected | internal/cache/index.go:383-441 | value, field, full-table and dependency lookups together give the selected keys; the value index only repeats keys |
| CacheIndexing.AddFields | internal/cache/index.go:164-175 | the key is listed under each column, nothing else changes |
| CacheIndexing.AddValues | internal/cache/index.go:136-150 | the key is listed under each exact-match value, nothing else changes |
| CacheIndexing.RemoveKey1 | internal/cache/index.go:493-577 | the key is gone, every other stays, emptied sets disappear |
| CacheIndexing.RemoveKey2 | internal/cache/index.go:493-577 | the same, one level deeper |
| CacheIndexing.RemoveKey3 | internal/cache/index.go:493-577 | the same, two levels deeper |
| ModelCache.FetchModelsByIDs | crud.go:32-169 | from a right cache the batched lookup returns exactly the restriction of the table to the ids, duplicates and batch borders included, and the cache stays right; from any cache nothing but ids asked for |
| ModelCache.LookupCached | crud.go:32-78 | what is found is stored, and every stored id is found or reported missing |
| ModelCache.LoadBatch | crud.go:79-169 | one batch adds the stored rows of its ids to the result and leaves row or marker in the cache, each right |
| Saving.SaveRowIsSaved | crud.go:227-408 | one save does to the data what is stated column by column: a value without an id adds one row, its columns as given but for the new id and the two time stamps; one with an id that differs in a tracked column overwrites those and the stamp; otherwise nothing; all other rows stay |
| Saving.SaveAllIsSavedAll | crud.go:589-630 | the statements of a batch do that one after the other |
| Saving.SaveIsMutation | crud.go:227-408 | a covered save that writes is one insert or one replacement of the stored row, and the write handed to invalidation describes it |
| Saving.StoredIsSaved | crud.go:319-388 | the row the UPDATE leaves equals the row that is cached exactly when the columns tagged `diff:"-"` were not altered |
| Saving.UpdateCachesStoredRow | crud.go:415-440 | after an update that writes, the model cache is right exactly when the row existed and its untracked columns were not altered |
| Saving.FinalizeKeepsCoherent | crud.go:415-461 | finalizing an insert, an update or a delete keeps model cache, query cache and registrations coherent with the changed table |
| Saving.SaveAllKeepsCoherent | crud.go:589-630 | a committed batch, even with one id saved repeatedly, leaves every cache coherent with the final table, although caches are touched only after the last statement |
| Saving.DeleteAllKeepsCoherent | crud.go:685-747 | the same for a committed batch of deletes |
| Saving.DeleteAllIsWithout | crud.go:685-747 | a batch of deletes goes through exactly if the values have the ids of different stored rows, and removes exactly these |
| ThingOrm.Thing.ByIDs | crud.go:750-781 | exactly the stored rows of the ids, if the caches are coherent; in any state nothing but the model cache changes |
| ThingOrm.Thing.Save | crud.go:227-461 | the data change and the row comes back as stated column by column without the code that saves; the invariant is kept under the stated conditions, and an update of a missing id leaves a phantom |
| ThingOrm.Thing.SoftDelete | crud.go:634-675 | a save of the value with only the deleted flag and the time stamp altered; fails without an id and then changes nothing |
| ThingOrm.Thing.Delete | crud.go:464-563 | the row leaves the table exactly if it was there, which is reported; the caches stay coherent when the value is the stored row |
| ThingOrm.Thing.SaveMany | crud.go:589-630 | all or nothing: a fault at any statement or at the commit leaves table and caches as they were, otherwise each value is saved in turn as stated without the code that saves, and the caches are coherent |
| ThingOrm.Thing.DeleteMany | crud.go:685-747 | all or nothing: fails and changes nothing when a value has no id or no row, two have one id, or a statement or the commit fails; otherwise exactly their rows go and the caches are coherent |
| ThingOrm.Thing.FinalizeSave | crud.go:415-461 | the saved row is cached and the affected query entries are dropped |
| ThingOrm.Thing.DropDeleted | crud.go:539-563 | the deleted row and the affected query entries leave the caches |
| ThingOrm.Thing.InvalidateQueryCaches | cache.go:128-143 | no query entry of the table survives, everything else does |
| ThingOrm.Thing.CacheQuery | query.go:456-473 | a stored result is registered with it, so no live query key is ever unregistered |
| ThingOrm.Thing.Expire | cache.go:641-732 | entries may disappear at any time without harm |
| ThingOrm.Thing.CollectGarbage | cache.go:742-780 | clean-up deregisters exactly the keys no longer in the store |
| ThingOrm.Thing.LoadList | query.go:373-452 | a miss yields exactly the closed form of a list, and in any state at most 200 ids |
| ThingOrm.Thing.ScanCount | query.go:240-275 | the full scan yields the number of visible rows |
| Paging.FillList | query.go:373-452 | the loop of at most 20 batches of 300 yields exactly the first 200 kept ids among the first 6000 matching rows; from any model cache it ends with at most 200 |
| Paging.FillStops | query.go:389-452 | stopping early, with enough ids or at the end of the result, loses nothing |
| Paging.CollectKept | query.go:418-441 | a batch adds its visible ids in order, up to the limit |
| Paging.CountByFullScan | query.go:240-275 | exactly the number of kept matching rows, for any size |
| Paging.ShortListIsComplete | query.go:464-473 | a list shorter than 200 is the whole visible result, for the default KeepItem or at most 6000 matching rows |
| Paging.ShortListLacks | query.go:377-452 | for any model a list shorter than 200 lacks exactly the visible rows past the 6000th match |
| Paging.ShortListCounts | query.go:128-145 | the length of a short list is a right count, short of the visible rows by at most the matches past the 6000th |
| Paging.DefaultKeepsAll | query.go:380-416 | under the default KeepItem the SQL filter has done the work of KeepItem, so skipping the model lookup is right |
| Paging.VisibleWithinSqlCount | query.go:187-196 | visible rows are never more than matching rows, and equally many under the default KeepItem |
| Queries.CachedResult.Count | query.go:99-177 | from coherent caches the exact count under the default KeepItem, and otherwise between the visible rows within reach and the SQL count, whichever of count entry, list entry or database answers; works in any state |
| Queries.CachedResult.CountPrecise | query.go:187-235 | the number of visible rows, for any model: exact with at most 6000 matching rows, and never short by more than the matches past the 6000th |
| Queries.CachedResult.FetchData | query.go:348-475 | from coherent caches the closed form of a list, cached or filled, and registered; works in any state |
| Queries.CachedResult.FetchStep | query.go:549-662 | whatever the caches and the memo hold: at most the rows needed, each kept, and progress only below the larger of the remembered length and the count; with the right list it takes the whole slice of the list or every kept row of the next page, and never forgets its caches |
| Queries.CachedResult.Fetch | query.go:514-667 | ends for any model, caches and memo with at most `limit` kept rows; from coherent caches and a right memo exactly the slice of the list continued by the kept rows of the SQL result, until enough or the count is reached |
| Queries.CachedResult.FetchPages | query.go:541-667 | the loop alone, for any remembered ids and any count: it ends with at most `limit` kept rows, and builds the page from a right list and count |
| Queries.DefaultPages | query.go:514-667 | under the default KeepItem such a page is exactly the rows from `offset` to `offset + limit` of the SQL result, across the seam at 200 |
| Queries.PagedRowsMatch | query.go:514-667 | every row of a page matches the query |
| Queries.ProgressTurn | query.go:549-662 | each turn of the loop extends the page without a gap, and one that finds nothing has used up the count or the result |
| Queries.CachedResult.All | query.go:671-701 | a page from the start as long as a right count; under the default KeepItem every row of the result, in order |
| Queries.CachedResult.First | query.go:703-725 | for every model exactly the first row of the list, or none if the list is empty |
| Queries.CachedResult.InvalidateCache | query.go:478-510 | the list and count of this query and the memo are forgotten, coherence stays |
| Queries.ProcessBatch | query.go:614-638 | the kept rows of a batch, in order, until enough, for any models found; an id gone or hidden is noticed |
| SqlBuilder.ExpandInClauses | internal/sqlbuilder/sqlbuilder.go:72-131 | filling the new arguments into the new text says what the caller meant, slices written out and NULL for an empty one; placeholders stay as many as arguments |
| SqlBuilder.IsInPlaceholder | internal/sqlbuilder/sqlbuilder.go:83-102 | the backward and forward scans decide exactly whether a placeholder is all there is between the parentheses of the word IN |
| SqlBuilder.ExpandKeepsMeaning | internal/sqlbuilder/sqlbuilder.go:72-131 | expansion keeps the meaning for any number of arguments |
| SqlBuilder.ExpandKeepsCount | internal/sqlbuilder/sqlbuilder.go:104-129 | placeholders in excess of the arguments stay in excess by as many, arguments in excess are dropped |
| SqlBuilder.ExpandTwice | internal/sqlbuilder/sqlbuilder.go:72-131 | a second expansion is the identity exactly unless some `IN (?)` is given a slice of one element that is itself a slice |
| SqlBuilder.OpensInSuffix | internal/sqlbuilder/sqlbuilder.go:84-102 | the test of a placeholder reads no further back than the placeholder or closing parenthesis before it |
| SqlBuilder.WritePlaceholders | internal/sqlbuilder/sqlbuilder.go:108-118 | one placeholder for each element, separated by commas, or NULL |
| Rebinding.Rebind | internal/sqlbuilder/sqlbuilder.go:196-213 | the loop numbers placeholders from one in the order of the text |
| Rebinding.RebindKeepsMeaning | internal/sqlbuilder/sqlbuilder.go:196-213 | PostgreSQL reads at each number the argument its question mark took, exactly when no placeholder or dollar sign has a digit directly behind it |
| Rebinding.RebindIsIdentity | internal/sqlbuilder/sqlbuilder.go:196-213 | dialects with question marks are left alone |
| Rebinding.PreparedKeepsMeaning | drivers/db/postgres/postgres.go:306-316 | expansion followed by rebinding delivers the caller's meaning, with the same exact condition on the caller's own text |
| SchemaDiff.GenerateAlterTableSQL | internal/schema/generate.go:283-525 | refused exactly when a spec with columns is partial and the dialect is MySQL, or a spec has name, uniqueness and columns of the first spec of its name and another predicate; otherwise, for any order of the maps, applying the statements gives the model's columns and types and settles the indexes; there are none exactly when the database is settled, and it is settled afterwards exactly when primary keys agreed and no index has a name of SQLite's, so a second diff is empty |
| SchemaDiff.ColumnChanges | internal/schema/generate.go:303-379 | columns and types equal the model's afterwards; nothing is to be done exactly when they do already and primary keys agree |
| SchemaDiff.AddMissingColumns | internal/schema/generate.go:303-337 | exactly the missing columns are added |
| SchemaDiff.DropExtraColumns | internal/schema/generate.go:340-349 | exactly the columns unknown to the model are dropped |
| SchemaDiff.AlterColumns | internal/schema/generate.go:352-379 | shared columns get the model's types; no statement exactly when types and primary keys agree |
| SchemaDiff.IndexChanges | internal/schema/generate.go:434-522 | every wanted index is present as defined, a foreign-named one is kept exactly if it duplicates a wanted one, what was right stays, SQLite's own are untouched |
| SchemaDiff.AddIndexes | internal/schema/generate.go:446-482 | missing indexes are created, differing ones dropped and created |
| SchemaDiff.DropIndexes | internal/schema/generate.go:484-522 | exactly the indexes are dropped that no model index accounts for by name or definition |
| SchemaDiff.PopulateIndexMap | internal/schema/generate.go:386-432 | the loop over the index specs refuses under exactly that condition, and otherwise gives each name wished for the definition of its first spec, and no other name |
| SchemaDiff.WishStep | internal/schema/generate.go:386-432 | one more spec: whether it is refused, and what is wanted after it |
| SchemaDiff.WantedIsUnique | internal/schema/generate.go:386-432 | the specs determine the wanted indexes |
| SchemaDiff.SameDefMeans | internal/schema/generate.go:580-585 | two index definitions count as the same by uniqueness, columns in any order, and whether there is a predicate other than white space |
| LocalLock.IncrIsSafe | cache.go:1071-1106 | in every state of every interleaving of any number of calls: one holder at most, and the n completed calls hold n different values, from a missing or unreadable entry exactly 1 to n with the entry at n, from the number m exactly m + 1 to m + n with the entry at m + n |
| LocalLock.RunKeepsInv | cache.go:1023-1106 | the three invariants hold in every state of every run |
| LocalLock.ExclusiveKept | cache.go:1028-1069 | every step keeps: one holder at most, and only while the channel is full |
| LocalLock.NothingLostKept | cache.go:1090-1103 | every step keeps: the entry counts the increments done, and what a holder has read is still stored |
| LocalLock.ValuesDistinctKept | cache.go:1090-1103 | every step keeps: no value is handed out twice |
| LocalLock.GaplessKept | cache.go:1090-1103 | every step keeps: the values handed out have no gap |
| LocalLock.RunKeepsGapless | cache.go:1071-1106 | along every run the values handed out are those from the first increment to the entry |
| LocalLock.ReturnsItsValue | cache.go:1090-1106 | a call returns what it incremented to |
| LocalLock.ReleaseOrLeak | cache.go:1053-1069 | after its increment a call empties the channel exactly unless the cancelled branch is taken |
| LocalLock.LeakIsForever | cache.go:1053-1069 | once the token is left behind no call ever increments again |

## Left out

- FilterIsConjunction: assumes that trimming removes no vertical tab or form feed; `WhereTrimming.FilterIffTerm` has the exact condition for all clauses.
- FilterIffSpaces: leaves out clauses that start with a quoted name containing word-ending characters, for which white space does not decide; `FilterIffTerm` covers them.
- CheckInOperator: signed and unsigned widths are one integer kind, so the overflow checks between them are not modelled; slices of pointers and byte slices are not represented.
- TextThenParse: floats have no text, because what reads them is unspecified, and neither have names with a closing bracket, which would end the bracketed name.
- SaveMany: values are rows, so one struct saved twice through two pointers is two values; aliasing of one pointer is not modelled. The id counter of the database is taken to be unchanged by a rollback.
- Rebind: quoted text is not told apart, as in the source; `RebindKeepsMeaning` therefore counts every question mark.
- GenerateAlterTableSQL: statements are values, not text; the ideal database does not drop indexes with their columns, types are compared by their mapped name, default values are not modelled, and unsupported dialects are not represented.
- IncrIsSafe: 64-bit wrap-around of the counter is not modelled, nor are other writers of the key.
- Relationships and preloads: their id lists are stored under keys the index does not register.
- Drivers, introspection, configuration, logging, hooks and events, gob encoding and reflection: plumbing around the modelled logic.
- Races between a fill and a write, and invalidation across processes over Redis: each operation is one step here.
- Clocks and lifetimes: expiry is a step that may take any entries at any time, and timestamps are parameters.
- JSON field selection (json.go): independent of the caches, and its parser does not end on unbalanced braces.
- SQL LIKE beyond the prefix, suffix and infix patterns of the matcher: `_` is an error there and drops the entry, a `%` inside is an ordinary character. Three-valued NULL logic: the matcher has none, and queries on which this shows are outside the theorem.
- Ordering comparisons with a nil argument panic in the source; the model returns a match error.
- Unicode white space and case folding: text helpers work on ASCII. They are functions here, not loops, and so are the heuristic splitters of internal/cache/index.go:698-754; what the splitters find decides nothing, since a clause outside the grammar is always a candidate.
- `strconv.ParseFloat` is an unspecified function that rejects identifier quotes, brackets and vertical white space; floating-point columns are reals.
- Deregistering on explicit deletion of a key is left to the clean-up step, as in the source.
