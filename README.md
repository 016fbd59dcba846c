# Property pipeline dashboard: a verified model of its core

The dashboard shows property listings that a set of import and enrichment
scripts keep in a SQLite store. Under its pages sit three self-contained
pieces of logic, and this project models each of them in Dafny and proves
what they promise.

1. **Listing enrichment and classification** (`utils/data_processing.py`).
   `enrich_dataframe` first coerces the numeric columns of a data frame to
   numbers. It then derives price per square foot, fills a missing rent by
   the 0.8% rule, and derives the gross rent yield. The standalone
   calculators and three categorizers (walkability, yield tier, price tier)
   also work in place. Two read-only queries list the rows that still miss
   some enrichment and the rows with the highest yield.
   - A frame is the `Frame` class. It holds a set of columns and an array of
     row records, and each masked column assignment is one pass over that
     array.
   - Each pass is proved against a per-row step function. Those step
     functions are proved correct, idempotent and binning-exact.
2. **The listing store and its filtered query** (`utils/database.py`).
   - `get_filtered_listings` grows a SQL text and a parameter list filter by
     filter. `BuildFilteredQuery` is that loop, proved against a clause-level
     specification (`BuildSpec`).
   - `QuerySemantics` gives SQLite's reading of the result: placeholders
     bound in order, NULL never comparing, and the case-insensitive
     blacklist exclusion. `FilteredRowsMeaning` proves that the query
     returns exactly the stored rows that satisfy every filter and are not
     blacklisted.
   - The store itself is the `ListingStore` class. Its two tables are
     sequence fields, which the blacklist and favourite statements update.
3. **The script runner** (`utils/script_runner.py`).
   - The argument lists of the `run_*` helpers are built from optional
     inputs in a fixed order. They are proved to read back (`Parse` after
     `Render`) to exactly the options built.
   - `get_script_progress` scans a script's output line by line, and the
     loop is proved to compute a left fold of a per-line analysis. Lemmas
     then say which line each field of the result comes from.

Files, one module each:

| file | module | what |
|---|---|---|
| `wrappers.dfy` | `Wrappers` | `Option`, `Result` |
| `text.dfy` | `Text` | `str.strip`, `in`, `split`, `int()`, `str(int)`, SQLite `lower()` |
| `collections.dfy` | `Collections` | masks (`Select`), a sort by a "goes before" relation, `head(n)` |
| `sql_values.dfy` | `SqlValues` | SQLite values, comparisons, `ORDER BY ... DESC` |
| `listing.dfy` | `Listings` | cells, columns, listing rows, frames as values, `pd.to_numeric` |
| `enrichment.dfy` | `Enrichment` | `enrich_dataframe`, calculators, categorizers; class `Frame` |
| `needs.dfy` | `Analysis` | `get_properties_needing_enrichment`, `get_top_properties_by_yield` |
| `filter_query.dfy` | `FilterQuery` | the filtered query's text and parameters; `get_all_listings`' query |
| `query_semantics.dfy` | `QuerySemantics` | what SQLite returns for the filtered query |
| `store.dfy` | `Store` | class `ListingStore`: blacklist, favourites, listing reads |
| `progress.dfy` | `Progress` | `get_script_progress` |
| `script_args.dfy` | `ScriptArgs` | the `run_*` argument builders and `run_script`'s command |

Three behaviours of the code differ from what one might expect of such a
store, and the model follows the code in each:
- One might expect every read to exclude blacklisted addresses.
  `get_all_listings` (utils/database.py:8-53) selects every row with no
  blacklist join. `Store.ListingStore.AllListings` therefore returns
  blacklisted rows too; only the filtered query excludes them.
- One might expect the blacklist to be append-only. `remove_from_blacklist`
  (utils/database.py:220-235) deletes entries, and so does
  `RemoveFromBlacklist`.
- One might expect the filtered query to be safe from SQL injection. Filter
  values do travel as parameters (`FilterQuery.TextIgnoresValues`), but
  column names are spliced into the text verbatim
  (utils/database.py:85, :88, :91, :93), and so they are in the model.

## Model

| member | source | states |
|---|---|---|
| Listings.Coerce | utils/data_processing.py:62-64 | `pd.to_numeric(errors='coerce')` on one cell: the result is never text, a number stays the same number, a missing value stays missing |
| Listings.CoerceIntegerText | utils/data_processing.py:62-64 | text holding a whole number, as `str(n)` writes it, coerces to exactly that number |
| Enrichment.EnrichRowFacts | utils/data_processing.py:74-94 | per row after coercion: `price_per_sqft = price/sqft` iff price and sqft are numbers and sqft > 0 (price may be ≤ 0), else unchanged; a numeric rent never changes; a missing rent becomes `price*0.008` iff price > 0; `rent_yield = rent*12/price` iff rent ends up numeric and price > 0, else unchanged; every other field keeps its coerced value |
| Enrichment.CoerceColumnsFacts | utils/data_processing.py:62-64 | coercion leaves no text in a numeric column the frame has, keeps every number, and is idempotent |
| Enrichment.StepsKeepConformity | utils/data_processing.py:62-94 | coercion and the three masked assignments keep missing every column the frame lacks |
| Enrichment.EnrichTableValid | utils/data_processing.py:54-96 | the enriched frame has the same number of rows, and each row fits the new column set |
| Enrichment.EnrichRowNoText | utils/data_processing.py:57-94 | after enrichment no numeric cell of a well-formed row holds text |
| Enrichment.StepsIdempotent | utils/data_processing.py:76-94 | the three derivation steps applied twice give the result of applying them once |
| Enrichment.EnrichRowIdempotent | utils/data_processing.py:54-96 | enriching an enriched row, under the enriched columns, changes nothing |
| Enrichment.EnrichIdempotent | utils/data_processing.py:54-96 | `enrich_dataframe(enrich_dataframe(df)) == enrich_dataframe(df)` on every well-formed frame |
| Enrichment.WalkScoreBins | utils/data_processing.py:21-29 | each walkability label belongs to exactly the scores of its bins (< 50 for "Car-Dependent", the two first bins sharing it), and "Unknown" exactly to a missing score |
| Enrichment.WalkScoreMonotone | utils/data_processing.py:21-29 | a higher score never gets a lower walkability label |
| Enrichment.YieldBins | utils/data_processing.py:35-43 | each yield label belongs to exactly the yields of its bin, and "Unknown" exactly to a missing yield |
| Enrichment.PriceBins | utils/data_processing.py:49-51 | a price gets label k iff it lies in `(edge k, edge k+1]`, the last bin being open above; no label iff the price is missing or ≤ 0 |
| Enrichment.PricePerSqftCalculatorStricter | utils/data_processing.py:4-9 | on every row: with a positive price `calculate_price_per_sqft` and `enrich_dataframe` agree; with a price ≤ 0 the calculator leaves the row alone while enrichment still stores `price/sqft` (for sqft > 0); without a numeric price neither changes it |
| Enrichment.RentYieldCalculatorStricter | utils/data_processing.py:11-16 | on every row: with a positive rent `calculate_rent_yield` and `enrich_dataframe` agree; with a rent ≤ 0 the calculator leaves the row alone while enrichment still stores `rent*12/price` (for price > 0); without a numeric rent neither changes it |
| Enrichment.EnrichExample | utils/data_processing.py:54-96 | price 500000 and 1000 sq ft with no rent give 500 per sq ft, rent 4000, yield 0.096 ("Good") and price tier "$250K-$500K" |
| Enrichment.Frame.constructor | utils/data_processing.py:54 | a frame object holding the given frame value |
| Enrichment.Frame.MapRows | utils/data_processing.py:78 | a masked column assignment: every row replaced by the step applied to it |
| Enrichment.Frame.CoerceColumn | utils/data_processing.py:63-64 | one column coerced in every row, the frame staying well-formed |
| Enrichment.Frame.CoerceNext | utils/data_processing.py:62-72 | one turn of the column loop: the column is coerced when present, or added all-missing when it is one of the three derived columns |
| Enrichment.Frame.CoerceNumericColumns | utils/data_processing.py:57-72 | after the loop every numeric column present is coerced in every row and the three derived columns are present |
| Enrichment.Frame.FillPricePerSqft | utils/data_processing.py:76-78 | when price and sqft are columns, every row gets the price-per-sqft step, and no row changes otherwise |
| Enrichment.Frame.FillRent | utils/data_processing.py:81-86 | when price is a column, every row gets the 0.8% fill, and no row changes otherwise |
| Enrichment.Frame.FillRentYield | utils/data_processing.py:90-94 | when rent and price are columns, `rent_yield` is added if absent and every row gets the yield step |
| Enrichment.Frame.Enrich | utils/data_processing.py:54-96 | the frame afterwards is `EnrichTable` of the frame before, with the same row array |
| Enrichment.Frame.CalculatePricePerSqft | utils/data_processing.py:4-9 | with price and sqft present, every row gets `price/sqft` where both are > 0; otherwise nothing changes |
| Enrichment.Frame.CalculateRentYield | utils/data_processing.py:11-16 | with price and rent present, every row gets `rent*12/price` where both are > 0; otherwise nothing changes |
| Enrichment.Frame.CategorizeWalkscore | utils/data_processing.py:18-30 | with a walk score column, every row gets exactly one label (the whole column replaced); otherwise nothing changes |
| Enrichment.Frame.CategorizeRentYield | utils/data_processing.py:32-44 | with a yield column, every row gets exactly one yield label; otherwise nothing changes |
| Enrichment.Frame.CategorizePrice | utils/data_processing.py:46-52 | with a price column, every row's category is replaced by its bin (none for a price ≤ 0 or missing); otherwise nothing changes |
| Analysis.FirstMissing | utils/data_processing.py:120-130 | the first column of the query's order that the frame lacks, with all earlier ones present |
| Analysis.PropertiesNeedingEnrichment | utils/data_processing.py:117-145 | fails (KeyError) iff the frame lacks a column the query indexes, naming such a column |
| Analysis.NeedsErrorIsFirst | utils/data_processing.py:120-130 | the KeyError names the first missing column in the order the query reads them |
| Analysis.ScoreListsAreSelections | utils/data_processing.py:119-124 | the three score lists are subsequences of the frame holding exactly the rows missing that score, each as often as in the frame |
| Analysis.MlsListIsSelection | utils/data_processing.py:126-127 | the MLS list holds, in order, exactly the rows missing the MLS number or the MLS type, each once per occurrence in the frame |
| Analysis.TaxAndCashflowListsAreSelections | utils/data_processing.py:129-136 | the tax and cashflow lists are subsequences of the frame; the tax list holds exactly the rows missing tax information |
| Analysis.CashflowListUniform | utils/data_processing.py:132-136 | the cashflow list is the whole frame when the column is absent, which on a well-formed frame is the rows missing a cashflow |
| Analysis.YieldBeforeIsPreorder | utils/data_processing.py:115 | descending yield with missing yields last orders every pair of rows and is transitive |
| Analysis.TopPropertiesByYield | utils/data_processing.py:110-115 | an empty frame without a yield column; otherwise the frame's columns and `head(n)`'s count of rows |
| Analysis.TopPropertiesAreTop | utils/data_processing.py:110-115 | the rows returned are rows of the frame in non-increasing yield order, and no row left out has a higher yield than any row returned |
| Collections.SelectIsSubsequence | utils/data_processing.py:120 | a boolean mask keeps the frame's order and keeps each row exactly as often as it occurs when the mask holds for it |
| Collections.SortBySorts | utils/data_processing.py:115 | the sort puts rows in the order of a total preorder (and by its contract only rearranges them) |
| Collections.HeadOfSortedIsTop | utils/data_processing.py:115 | the first k rows of a sorted list are sorted and go before every row left out |
| FilterQuery.ParamsForPlaceholders | utils/database.py:82-94 | each filter adds one parameter per placeholder of the clauses it adds |
| FilterQuery.BuildSpec | utils/database.py:80-94 | fails iff some filter value is the empty tuple, and with the first such filter's column; otherwise one parameter per placeholder |
| FilterQuery.BuildFilteredQuery | utils/database.py:70-94 | the query text is the fixed head followed by the text of `BuildSpec`'s clauses, in filter order, and the parameters are `BuildSpec`'s |
| FilterQuery.AppendFilter | utils/database.py:81-94 | one filter appends the text of its clauses and its parameters: a 2-tuple is a range whatever its items, another tuple led by the sentinel is `IS NOT NULL`, anything else `= ?` |
| FilterQuery.AppendRange | utils/database.py:82-89 | a range appends `>= ?` for a lower bound that is not None, then `<= ?` for an upper bound that is not None, with the bounds as parameters in that order |
| FilterQuery.AppendMin | utils/database.py:84-86 | the lower bound's clause and parameter, only when it is not None |
| FilterQuery.AppendMax | utils/database.py:87-89 | the upper bound's clause and parameter, only when it is not None |
| FilterQuery.BaseHasNoPlaceholder | utils/database.py:70-78 | the fixed head of the query holds no `?` |
| FilterQuery.PlaceholderCount | utils/database.py:70-94 | when no filtered column name holds a `?`, the query holds exactly one `?` per parameter |
| FilterQuery.ClausesNameFilteredColumns | utils/database.py:81-94 | every clause is on the column of a filter |
| FilterQuery.TextIgnoresValues | utils/database.py:80-94 | two filter lists with the same columns and value shapes give the same SQL text, so no filter value is spliced into it |
| FilterQuery.AllListingsLimit | utils/database.py:23-25 | `get_all_listings`' query has ` LIMIT n` appended iff the limit is truthy, and the appended number reads back as the limit |
| QuerySemantics.Bind | utils/database.py:96 | binding placeholders in order yields one condition per clause, or fails |
| QuerySemantics.Execute | utils/database.py:70-104 | every row returned is a stored row whose address is not blacklisted |
| QuerySemantics.FilteredRows | utils/database.py:55-104 | the IndexError happens iff some filter value is the empty tuple; otherwise only stored, non-blacklisted rows are returned |
| QuerySemantics.FilteredRowsMeaning | utils/database.py:70-104 | when every filter can run, the result is exactly the stored rows, in table order, that are not blacklisted and satisfy every filter; when some filter cannot, the result is empty |
| QuerySemantics.SpecResolves | utils/database.py:81-94 | the clauses name only listing columns iff every filter that adds a clause names one |
| QuerySemantics.SpecBinds | utils/database.py:81-96 | binding fails iff some filter value is passed on as a tuple |
| QuerySemantics.SpecConditions | utils/database.py:80-94 | the bound conditions hold of a row iff it matches every filter |
| QuerySemantics.FilterMeaning | utils/database.py:82-94 | one filter's bound conditions hold of a row iff the row matches that filter, and they fail to bind iff the value is a tuple passed on whole |
| QuerySemantics.RangeFilterMeaning | utils/database.py:82-89 | a range always binds, and its conditions hold iff each present bound holds |
| QuerySemantics.FilterEmpty | utils/database.py:82-89 | a filter adds no clause iff it is `(None, None)` |
| QuerySemantics.FilterResolves | utils/database.py:82-94 | one filter's clauses name only listing columns iff it adds none or its column is one |
| QuerySemantics.FilterBinds | utils/database.py:82-96 | one filter's parameters match its placeholders and fail to bind iff the value is a tuple passed on whole |
| QuerySemantics.RangeMeaning | utils/database.py:82-89 | a range adds no clause iff both bounds are None, binds to its bound conditions, which hold iff each present bound holds |
| QuerySemantics.SingleClauseMeaning | utils/database.py:90-94 | a non-range filter adds one clause, which binds unless it is a tuple, and holds iff the row matches |
| QuerySemantics.RangeCondsHold | utils/database.py:84-89 | a range's conditions hold iff the value is at least the lower bound and at most the upper bound, for each bound present |
| QuerySemantics.BindSingle | utils/database.py:90-96 | `IS NOT NULL` binds nothing, a tuple parameter cannot be bound, any other value binds to its comparison |
| QuerySemantics.BindAppend | utils/database.py:96 | binding two clause lists one after the other is binding them joined |
| SqlValues.Compare | utils/database.py:85-93 | numbers compare by value whatever their storage class, and every number is below every text |
| SqlValues.NullNeverCompares | utils/database.py:85-93 | a comparison with NULL on either side never holds; equality is being at least and at most |
| SqlValues.DescBeforeTotal | utils/database.py:282 | `ORDER BY ... DESC` orders every pair of values |
| SqlValues.DescBeforeTransitive | utils/database.py:282 | `ORDER BY ... DESC` is transitive |
| Store.LimitCount | utils/database.py:24-25 | `LIMIT n` keeps exactly n rows for a truthy n with 0 ≤ n ≤ the row count, and all rows for a falsy, negative or larger limit |
| Store.SetFavorite | utils/database.py:255-259 | the rows with the id get the new flag and keep every other column; every other row is unchanged |
| Store.ListingStore.IsAddressBlacklisted | utils/database.py:190-201 | true iff the filtered query's blacklist sub-query would exclude a row with this address, i.e. some entry equals it after ASCII lower-casing |
| Store.ListingStore.AddToBlacklist | utils/database.py:203-218 | inserts an entry iff none has the same key, returns whether it did, keeps keys unique and the listings unchanged; afterwards the address is blacklisted |
| Store.ListingStore.RemoveFromBlacklist | utils/database.py:220-235 | deletes every entry matching case-insensitively, which is at most one since keys are unique; returns true iff there was one, leaves the address not blacklisted and the listings unchanged |
| Store.ListingStore.ToggleFavorite | utils/database.py:237-273 | without a row of that id nothing changes and the answer is false; otherwise the rows with that id get flag 1 or 0 and the answer is the driver's row count being positive |
| Store.ListingStore.Favorites | utils/database.py:275-289 | `get_favorites` returns the rows sorted newest first, holding exactly the rows with `favorite = 1`, each as often as stored |
| Store.ListingStore.AllListings | utils/database.py:8-53 | the first `LimitCount` rows in storage order, with no blacklist exclusion |
| Store.ListingStore.GetFilteredListings | utils/database.py:55-104 | the result is `FilteredRows` of the current tables |
| Store.BlacklistedIsListed | utils/database.py:74-77 | for any store and row, the filtered query's exclusion holds iff the row's address is text and `is_address_blacklisted` reports it |
| Store.FilteredExcludesBlacklist | utils/database.py:70-104 | no row the filtered query returns has an address `is_address_blacklisted` reports, whatever the filters |
| Store.FavoritesExactly | utils/database.py:279-283 | the favourites are sorted newest first and hold exactly the rows with `favorite = 1`, each as often as stored |
| Store.NewerFirstIsPreorder | utils/database.py:282 | `ORDER BY last_updated DESC` is a total preorder on rows |
| Store.ToggleOnMakesFavorite | utils/database.py:255-283 | a listing marked as favourite is then among the favourites |
| Store.AppendKeepsKeysUnique | utils/database.py:209 | inserting an address with no entry keeps the keys unique |
| Store.SelectKeepsKeysUnique | utils/database.py:225-227 | deleting entries keeps the keys unique |
| Store.SelectDropsOneKey | utils/database.py:225-227 | with unique keys the case-insensitive delete removes at most one entry |
| Store.SelectShorter | utils/database.py:230 | a delete removed something iff some entry matched |
| Progress.OutputLines | utils/script_runner.py:102 | the stripped output split at line feeds: at least one line, and joining them gives back the stripped output |
| Progress.GetScriptProgress | utils/script_runner.py:97-143 | `None` for missing or empty output, otherwise the fold of the per-line analysis over the output's lines |
| Progress.ScanLines | utils/script_runner.py:103-141 | the loop, with its per-line tests, computes from the start values the left fold of the per-line analysis over the lines, so every field of the result is the one `Fold` defines |
| Progress.TotalBetween | utils/script_runner.py:115-119 | for a line `a + "Found" + b + "listings" + c` whose first `Found` is the one after `a`, with no `listings` in `b` and no second `Found` before that `listings` ends, the total read is `int(b.strip())`, or none when that is not a number |
| Progress.TotalToEnd | utils/script_runner.py:115-119 | when the line's only `listings` comes before its first `Found`, the total read is `int` of everything after that `Found`, stripped |
| Progress.ProcessedPlain | utils/script_runner.py:122-129 | for a line `a + "Processing" + b + "/" + c` with the first `Processing` after `a`, no `/` in `b` and no `[` in `b.strip()`, the count read is `int(b.strip())` |
| Progress.ProcessedBracketed | utils/script_runner.py:122-129 | when `b.strip()` is `p + "[" + q` with no `[` in `p`, the count read is the text after that first `[`, up to a second `[` if any, stripped and read as an integer |
| Progress.ProgressLineExamples | utils/script_runner.py:115-129 | `Found 12 listings` gives a total of 12; `Processing [3/12] 10 Main St` and `Processing 3/12` both give a processed count of 3 |
| Progress.Tally | utils/script_runner.py:132-137 | a count of marked lines is at most the number of lines |
| Progress.FoldCounts | utils/script_runner.py:131-137 | `success` and `failed` count exactly the lines with a success and a failure marker, so neither exceeds the number of lines |
| Progress.TotalIsLastFound | utils/script_runner.py:114-119 | `total` is the count of the last line that yields one, and 0 if none does |
| Progress.ProcessedIsLastFound | utils/script_runner.py:121-129 | `processed` is the count of the last line that yields one, and 0 if none does |
| Progress.LastMessageIsLastLine | utils/script_runner.py:139-141 | `last_message` is the last non-blank stripped line, and empty if every line is blank |
| Progress.AnalyseBlank | utils/script_runner.py:112-141 | a blank line yields no count and no marker |
| Progress.BlankHasNothing | utils/script_runner.py:115-137 | the empty line contains none of the words and markers |
| Text.LeadingSpaces | utils/script_runner.py:112 | the whitespace run at the start of a line |
| Text.TrailingSpaces | utils/script_runner.py:112 | the whitespace run at the end of a line |
| Text.StripIsTrimmedSlice | utils/script_runner.py:112 | `strip()` returns a slice outside which everything is whitespace and whose ends are not |
| Text.IndexFrom | utils/script_runner.py:115 | a position found is at or after the start and holds the pattern |
| Text.IndexFromFirst | utils/script_runner.py:115 | the position found is the first occurrence, and none found means none occurs |
| Text.ContainsMeansOccurs | utils/script_runner.py:115 | `pat in s` iff the pattern occurs at some position |
| Text.Before | utils/script_runner.py:117 | `s.split(sep)[0]` is the prefix of `s` up to the first occurrence of `sep`: that occurrence starts right after it and none starts inside it; the whole text when `sep` is absent |
| Text.BeforeHasNoSeparator | utils/script_runner.py:117 | `s.split(sep)[0]` holds no occurrence of the separator |
| Text.SecondPiece | utils/script_runner.py:117 | `s.split(sep)[1]` exists iff `sep` occurs, and is then the text after the first occurrence up to the next one (or the end) |
| Text.SplitAtFirst | utils/script_runner.py:117 | an occurrence of `sep` with none before it decides both pieces: `s[..i]` and the text after it up to the next `sep` |
| Text.PieceBetween | utils/script_runner.py:117 | `s.split(first)[1].split(second)[0]` of `a + first + b + second + c` is `b`, when `first` first occurs after `a`, `second` does not occur in `b`, and no `first` starts before that `second` ends |
| Text.SplitOn | utils/script_runner.py:102 | `split('\n')` gives at least one piece, none holding a line feed |
| Text.JoinSplit | utils/script_runner.py:102 | joining the pieces again gives back the text |
| Text.ParseIntOfString | utils/database.py:25 | `int(str(n)) == n` for every integer, so the LIMIT number reads back |
| Text.CountChar | utils/database.py:85-93 | a count of `?` is zero iff none occurs |
| Text.CountCharAppend | utils/database.py:85-93 | counting `?` in joined text adds the counts |
| Text.Lower | utils/database.py:197 | SQLite `lower()` keeps the length and folds each ASCII capital |
| ScriptArgs.Render | utils/script_runner.py:9-11 | the argv words of the options, at least one per option |
| ScriptArgs.ParseRender | utils/script_runner.py:9-11 | argv rendered from well-formed options parses back to exactly those options |
| ScriptArgs.Lookup | utils/script_runner.py:27-34 | the value found for a flag is given with that flag, and none found means no option has it |
| ScriptArgs.EmitMembers | utils/script_runner.py:27-34 | an option is emitted iff one of the steps emits it |
| ScriptArgs.EmitOrder | utils/script_runner.py:27-34 | the emitted flags follow the order of the steps |
| ScriptArgs.EmitLookup | utils/script_runner.py:27-34 | with distinct flags, a valued step's flag looks up to exactly the value it was given |
| ScriptArgs.EmitSwitch | utils/script_runner.py:27-34 | with distinct flags, a switch is emitted iff its input is true |
| ScriptArgs.EmitWellFormed | utils/script_runner.py:27-34 | exactly the valued steps' flags carry a value |
| ScriptArgs.GmailOptions | utils/script_runner.py:25-36 | `--max-emails N` iff N is not 0, `--dry-run` iff asked, `--config C` iff C is non-empty, in that order, each with its value |
| ScriptArgs.CompassOptions | utils/script_runner.py:38-53 | `--output`, `--limit`, `--headless`, `--update-db`, `--address` in that order, each iff its input is truthy, each with its value |
| ScriptArgs.CashflowOptions | utils/script_runner.py:59-76 | `--config-path`, `--db-path`, `--limit`, `--dry-run`, `--force-update`, `--address` in that order, each iff its input is truthy, each with its value |
| ScriptArgs.AnalyzerOptions | utils/script_runner.py:82-95 | the five fixed options first and in order, then `--loan-term` iff the term is non-zero and `--db-path` iff the path is non-empty, each with its value |
| ScriptArgs.AnalyzerExtras | utils/script_runner.py:90-93 | the optional tail: `--loan-term` then `--db-path`, each iff truthy, each with its value |
| ScriptArgs.Command | utils/script_runner.py:9-11 | the interpreter, then the script path, then the arguments unchanged |
| ScriptArgs.ScriptResult | utils/script_runner.py:19-23 | the return code always; stdout and stderr iff output was captured |
| ScriptArgs.NoArgumentCommand | utils/script_runner.py:55-57 | no arguments and an empty list both give just the interpreter and the script |
| ScriptArgs.GmailCommand | utils/script_runner.py:25-36 | the command starts with the interpreter and the script and its tail parses back to the Gmail options |
| ScriptArgs.CompassCommand | utils/script_runner.py:38-53 | the command starts with the interpreter and the script and its tail parses back to the Compass options |
| ScriptArgs.CashflowCommand | utils/script_runner.py:59-76 | the command starts with the interpreter and the script and its tail parses back to the cashflow options |
| ScriptArgs.AnalyzerCommand | utils/script_runner.py:82-95 | the command starts with the interpreter and the script and its tail parses back to the analyzer options |

## Left out

- Floating point. Prices, areas, rents, scores and yields are Dafny `real`,
  so rounding near the 0.008 factor or at the bin edges is not modelled, and
  neither are NaN's comparison quirks beyond "missing".
- `get_summary_stats`, `get_blacklisted_addresses`, `format_currency` and
  `format_percentage`. They are SQL aggregates over floats, a plain read,
  and float rendering.
- Connections, `pd.read_sql_query`, `subprocess.run` and printing. These are
  I/O. A stored table is a sequence of rows, and the child process's outcome
  is the `Completed` parameter of `ScriptArgs.ScriptResult`.
- `pd.read_sql_query`'s `dtype` conversion on read, and SQLite's column
  affinity. The model compares values by their storage class.
- Projection. A filtered or full read returns whole stored rows, not the 47
  named columns.
- Database errors on `get_all_listings`: the model's table always has the
  selected columns. For the filtered query, only the two failures its
  filters can cause are modelled: a column name that is not a listings
  column, and a tuple value passed on as a parameter. Both give the empty
  result.
- Column names are compared exactly, though SQLite resolves identifiers
  case-insensitively. A name that is not a plain identifier (the verbatim
  splice that allows SQL injection) is also modelled only as "not a listings
  column".
- A non-text address never matches the blacklist.
- Neither `get_all_listings` nor the filtered query has an `ORDER BY`, so
  the model returns rows in storage order.
- Store.ListingStore.Favorites: ties in `last_updated` come out in the order
  the model's insertion sort gives. SQLite leaves that order unspecified,
  so only sortedness and the multiset of rows are stated.
- Analysis.TopPropertiesByYield: pandas' order for equal yields is not
  modelled. Only non-increasing order, the count and "no better row left
  out" are stated.
- Store.ListingStore.ToggleFavorite: the answer on the found path reads the
  cursor's `rowcount` after a SELECT, which depends on the sqlite3 driver.
  It is a parameter (`rowcount`), and only "answer iff rowcount > 0" is
  stated.
- Store.ListingStore.AddToBlacklist: `INSERT OR IGNORE` relies on a
  uniqueness constraint of a table schema that is not part of this model.
  The model takes the key to be the address lower-cased in ASCII, the same
  match the lookup and the delete use. Time stamps are left out.
- `int()` and `str()` of integers. Parsing is an optional sign followed by
  ASCII digits, with no underscores and no non-ASCII digits.
  `pd.to_numeric` on text is a decimal literal (sign, digits, optional
  point). Exponents, `inf` and `nan` text become missing.
- ScriptArgs.AnalyzerOptions: `str(float)` of the analyzer's money figures
  and loan term is an opaque parameter `show`. The loan term is a real, and
  only its non-zero test is modelled.
- ScriptArgs.GmailOptions: `max_emails` is an integer. Passing `None`, which
  also drops the flag, is not modelled.
- How the scripts parse their argument lists (argparse) is outside the
  model. `ScriptArgs.Parse` only shows that each command line carries its
  options unambiguously.
- The categorizers and the standalone calculators require that their input
  columns hold no text, because pandas raises TypeError when it compares
  text with a number. `enrich_dataframe` coerces first and needs no such
  requirement.
- Listings.Coerce: the numeric parser of `pd.to_numeric` also skips
  whitespace around a number, so `" 12 "` becomes 12 in the source but
  missing in the model.
- `rent_yield` is not among the coerced columns, and `get_filtered_listings`
  reads without a `dtype`. A yield stored as text would therefore reach the
  categorizers and the top-by-yield sort, where pandas raises TypeError.
  `Listing.rentYield` holds numbers only, so the model does not cover that
  case.
- `categorize_price`'s result is a pandas categorical. The model stores the
  label text.
