# cargo-scan, modelled in Dafny

cargo-scan looks for potentially dangerous behaviour ("effects") in Rust crates. This project models four parts of it:

- **The Python front end.** It has a grep-like back end that reads a crate's `use` statements and flags the imports on a watchlist of risky standard-library modules and crates. It also has a MIRAI back end that turns call-path traces into effects. Both write effects as CSV rows and tally them into a summary report.
- **The audit-policy language.** A policy is a list of `allow`, `require` and `trust` statements. A `PolicyLookup` summarises a policy as allow sets and require sets and checks call-graph edges against them.
- **The scanner's bookkeeping.** This covers the line-of-code counters, the scan results (effects, effect blocks, function declarations and the call graph), the `cfg`-attribute skipping, and the scope discipline of the scanner: the stacks of open functions and effect blocks, and the counter of open unsafe scopes, as the scanner walks a file's declarations.
- **The string and iterator utilities.**

Modules, one per file:

| file | module | models |
|---|---|---|
| outcomes.dfy | `Outcomes` | `Option` and `Result` |
| strings.dfy | `Strings` | the Python and Rust string operations used: `strip`, `in`, `split`, `join`, `replace`, `rsplit`, `str(n)` |
| sorting.dfy | `Sorting` | Python's `sorted` on strings, and the stable sort by descending count |
| csv.dfy | `Csv` | `Effect`, `sanitize_comma`, `csv_header`, `to_csv`, `truncate_str` |
| watchlist.dfy | `Watchlist` | `OF_INTEREST_STD`, `OF_INTEREST_OTHER`, `is_of_interest` |
| useparser.dfy | `UseParser` | `parse_use_core`, `parse_use` |
| grepscan.dfy | `GrepScan` | `scan_use`, the chunking of `scan_rs`, `scan_file` |
| summary.dfy | `Summary` | the counting in `main`, `sort_summary_dict`, `make_summary` |
| mirai.dfy | `Mirai` | `parse_mirai_call_line`, `mirai_call_path_as_effect`, the line loop of `scan_crate_mirai` |
| policy.dfy | `Policy` | rust-src/src/policy.rs |
| scanner.dfy | `Scanner` | the bookkeeping of src/scanner.rs |
| util.dfy | `Util` | src/util.rs |

Python dictionaries keep insertion order, so the summary dictionaries are association lists with unique keys. Warnings that the source logs are returned as values wherever a property is about them: `parse_use` returns its warnings next to its paths. Where the source works by mutation, the model does too:

- the summary aggregator is a class;
- `Policy` and `PolicyLookup` are classes;
- `LoCTracker`, `ScanResults` and `Scanner` are classes.

The methods of these classes are proved against specification functions. In the scanner, every `Scanner` method is proved to change the abstract state exactly as the corresponding function does (`ScanItemsOn`, `ScanFnOn`, `ScanUnsafeOn`, `PushCallsiteOn`, …). The scope-discipline properties are proved as lemmas about those functions.

## Model

| member | source | states |
|---|---|---|
| Csv.SanitizeComma | scan.py:109-112 | the result holds no comma, and comma-free input is returned unchanged |
| Csv.SanitizeCommaPieces | scan.py:109-112 | sanitising distributes over concatenation, and one character is dropped exactly when it is a comma: so exactly the commas are removed, every other character kept in order |
| Csv.SanitizedFields | scan.py:141-149 | eight fields, one per column, none holding a comma |
| Csv.CsvHeaderColumns | scan.py:138-139 | the header splits at ", " back into the eight column names and holds seven commas |
| Csv.ColumnNamesCommaFree | scan.py:138-139 | no column name holds a comma |
| Csv.CsvHeader | scan.py:138-139 | the header row: its properties are those of `CsvHeaderColumns` |
| Csv.ToCsvColumns | scan.py:141-151 | a row splits at ", " back into exactly its eight sanitised fields, as many as the header has columns, and holds exactly seven commas |
| Csv.ToCsvCommaFree | scan.py:141-151 | an effect whose fields hold no comma is written unchanged: the row splits back into the effect's own eight fields |
| Csv.ToCsv | scan.py:141-151 | one CSV row per effect: its properties are those of `ToCsvColumns` and `ToCsvCommaFree` |
| Csv.TruncateStr | scan.py:100-105 | the result is never longer than n, and equals the input exactly when the input fits |
| Csv.TruncateStrProperties | scan.py:100-105 | the result is never longer than n; it equals the input exactly when the input fits; otherwise it is n long, begins with what fits of the input and ends in "..."; truncating twice is truncating once |
| Watchlist.WatchlistIsLiteral | scan.py:52-77 | no watchlist entry holds a regular-expression metacharacter, so a regex search is substring search |
| Watchlist.StdIsLiteral | scan.py:52-59 | the standard-library entries are literal patterns |
| Watchlist.OtherIsLiteral | scan.py:63-77 | the third-party entries are literal patterns |
| Watchlist.LastMatch | scan.py:235-242 | a found entry belongs to the watchlist and occurs in the line |
| Watchlist.IsOfInterest | scan.py:235-242 | the loop over the whole watchlist returns the last matching entry (`LastMatch`), with one overwrite warning per match after the first |
| Watchlist.LastMatchSpec | scan.py:235-242 | `is_of_interest` gives None exactly when no entry occurs in the line; otherwise it gives an entry that occurs, and no later entry occurs |
| Watchlist.LastMatchCount | scan.py:235-242 | a match is found exactly when the number of matching entries is not zero |
| Watchlist.StdFsExample | scan.py:52-59 | under the standard-library watchlist, `std::fs` is flagged with the `std::fs` entry |
| UseParser.ParseUseCore | scan.py:244-269 | the character loop with its stack, `cur` and `pending` yields exactly the paths and warnings of the expansion `ExpandUse` |
| UseParser.CoreRun | scan.py:244-263 | the loop state after each character; its invariants are those of `CoreRunPrefixChain`, `CoreRunCommaCount` and `CoreRunStopKinds` |
| UseParser.ExpandUse | scan.py:244-269 | at most one warning, and without a warning at least one path |
| UseParser.StopPersists | scan.py:253-262 | once the loop has stopped, the rest of the input changes nothing |
| UseParser.CoreRunCommaCount | scan.py:253-258 | without an early stop, one path is yielded per comma |
| UseParser.CoreRunStopKinds | scan.py:253-262 | the loop stops early only on an unexpected ',' or '}' |
| UseParser.ExpandUsePathCount | scan.py:244-269 | without a stopping warning there is one path more than the input has commas, and the only possible warning is the unclosed brace |
| UseParser.CoreRunPrefixChain | scan.py:249-263 | the stack is always a chain of prefixes, and `cur` extends the top entry |
| UseParser.EarlyStop | scan.py:253-262 | a ',' or '}' read with no brace open stops with its warning, keeping exactly the paths already yielded |
| UseParser.ExpandUsePlain | scan.py:264-269 | input without braces or commas yields exactly itself, stripped, with no warning |
| UseParser.CoreRunPlainAppend | scan.py:264-265 | text without braces or commas only extends `pending` |
| UseParser.ExpandUseClosed | scan.py:266-269 | a run that ends with every brace closed and nothing pending yields `cur` last, without warning |
| UseParser.UseBody | scan.py:298-300 | the body after "use " with newlines removed keeps the statement's ';' |
| UseParser.ParseUse | scan.py:271-311 | paths are returned only when the statement ends in a newline, starts with "use ", holds a ';' and holds no '/' |
| UseParser.ParseUseRejects | scan.py:284-305 | each malformed statement gives no path and exactly one warning, the one of the first failed check: no final newline, no "use ", no ';', a '/' |
| UseParser.ParseUseAccepts | scan.py:297-311 | a well-formed statement gives its body's expansion sorted, a permutation of that expansion; an extra ';' adds a warning and changes no path |
| UseParser.ParseUseOfBody | scan.py:271-311 | `use x;` on one line, with no ';', '/' or newline in x, gives the sorted expansion of x |
| UseParser.ExpandRender | scan.py:244-269 | for every well-formed `use` tree (path pieces at the leaves and prefixes, no empty group) written in its canonical form, with ", " between subtrees and no space after '{', the loop yields, with no warning, exactly the tree's brace expansion: each leaf behind the prefixes of its enclosing groups, left to right |
| UseParser.ParseUseTree | scan.py:271-311 | for every well-formed tree in its canonical form, `use <tree>;` gives the sorted brace expansion with no warning: sorted, and a permutation of the expansion |
| UseParser.ParseUseTreeSorted | scan.py:271-311 | any sorted permutation of a tree's expansion is exactly what `use <tree>;` returns |
| UseParser.NestedExample | scan.py:271-311 | `use a::{b, c::{d, e}};` gives `a::b`, `a::c::d`, `a::c::e`, with no warning |
| GrepScan.PathEffectsSpec | scan.py:313-335 | as many effects as matching paths; each names the crate, directory and file scanned, has "Unknown" for module, caller, callee and location, and carries a watchlist entry that occurs in a path |
| GrepScan.PathEffects | scan.py:320-335 | at most one effect per path; each names the crate, directory and file scanned and a watchlist entry |
| GrepScan.PathEffectsConcat | scan.py:320-335 | the effects of two path lists are the effects of the first followed by those of the second |
| GrepScan.PathEffectsSingle | scan.py:320-335 | one path yields the effect for its last matching entry, or nothing when no entry matches; with `PathEffectsConcat`, effect k belongs to the k-th matching path |
| GrepScan.ScanUse | scan.py:313-335 | at most one effect per parsed path, each for the crate, directory and file scanned and a watchlist entry |
| GrepScan.PathEffectsNone | scan.py:320-323 | paths that match no entry yield nothing |
| GrepScan.ScanUseRejects | scan.py:313-335 | a malformed statement yields no effect |
| GrepScan.ScanUseSinglePath | scan.py:313-335 | `use x;` with a plain path yields exactly one effect, for the last matching entry, when the stripped path matches, and none otherwise |
| GrepScan.ChunkRun | scan.py:343-353 | the chunks and the pending buffer after each line; its properties are those of `ChunkRunSpec` |
| GrepScan.ChunkRunSpec | scan.py:343-353 | the chunks followed by the buffer spell out the input in order; every chunk holds a ';' and the buffer holds none, so text after the last ';' is never handed on |
| GrepScan.ScanRs | scan.py:337-353 | the line loop returns the cleaned chunks, in order |
| GrepScan.ScanChunks | scan.py:355-363 | every effect names the crate, directory and file scanned and a watchlist entry |
| GrepScan.ScanChunksSpec | scan.py:355-363 | every effect of a file names the crate, directory and file scanned, and a watchlist entry |
| GrepScan.ScanChunksNone | scan.py:359-363 | chunks the `use` selector rejects contribute nothing |
| Sorting.LexLeTotal | scan.py:311 | string order is total |
| Sorting.LexLeTrans | scan.py:311 | string order is transitive |
| Sorting.LexLeAntisymmetric | scan.py:311 | string order is antisymmetric |
| Sorting.SortStrings | scan.py:311 | `sorted` keeps the length; its order and permutation are stated by `SortStringsCorrect` |
| Sorting.SortStringsCorrect | scan.py:311 | `sorted` gives a sorted permutation of its input |
| Sorting.LexSortedUnique | scan.py:311 | two sorted permutations of one list are equal, so the sorted order is unique |
| Sorting.SortByCount | scan.py:192-193 | the sort keeps the length; order, permutation and stability are stated by `SortByCountCorrect` |
| Sorting.SortByCountCorrect | scan.py:192-193 | sorting by count in reverse gives non-increasing counts and a permutation, and it is stable: entries of equal count keep their order |
| Summary.SetDefaultSpec | scan.py:543 | `setdefault` adds the key at the end exactly when it is missing, and changes no count |
| Summary.IncrementSpec | scan.py:542-544 | incrementing a present key keeps the keys and their order and adds one to that key's count and to the total; other counts are unchanged |
| Summary.FromKeysSpec | scan.py:523-524 | `{k: 0 for k in ks}` has exactly the keys of ks, each once, every count 0 |
| Summary.RecordPatternsSpec | scan.py:542-544 | counting a list of effects into the pattern dictionary keeps the old keys in order, adds a key exactly for a new pattern, adds to each pattern its number of effects and to the total their number |
| Summary.RecordPatternsConcat | scan.py:538-544 | counting two lists of effects one after the other is counting their concatenation |
| Summary.Aggregator.constructor | scan.py:522-524 | no results; the crate and pattern dictionaries have every crate and every watchlist pattern at 0, in order |
| Summary.Aggregator.Record | scan.py:540-544 | one effect: appended to the results, one added to its crate's count, its pattern inserted at 0 if new and then incremented; the invariant (both totals equal the number of results, and each pattern's count is its number of effects) is kept |
| Summary.Aggregator.RecordAll | scan.py:538-544 | every effect of one crate's scan is appended in order, the crate's count grows by their number, the other crates' counts are unchanged, and the pattern dictionary becomes the old one with the effects counted in order (`RecordPatterns`) |
| Summary.Aggregate | scan.py:522-544 | after the crate loop the results are every effect in order; the crate keys are the crates, in order, each counting the effects its scans yielded; the pattern dictionary is the watchlist at 0 with every effect counted in order (`RecordPatterns`) |
| Summary.AggregatedTotalsAgree | scan.py:197 | the dictionaries `main` fills always pass the sanity check of `make_summary`: both totals equal the number of results |
| Summary.PatternSection | scan.py:202-204 | one line "p: n" per pattern, in the order given |
| Summary.CrateSection | scan.py:208-217 | lines only for crates with a nonzero count, and the two tallies |
| Summary.MakeSummary | scan.py:195-221 | under the sanity check, the report is the two headed sections and the totals |
| Summary.SummaryText | scan.py:195-221 | the report text; its sections are stated by `PatternSection`, `CrateSection` and `SummaryProperties` |
| Summary.CrateLinesNonzero | scan.py:211-217 | the crate section lists exactly the nonzero entries, in order, and the two tallies add up to the number of entries |
| Summary.NonzeroMembers | scan.py:211-215 | an entry is listed exactly when its count is nonzero |
| Summary.SummaryProperties | scan.py:195-221 | pattern lines come in non-increasing count order; only and all nonzero crates are listed, in non-increasing order; nonzero plus zero crates is the number of crate keys |
| Strings.TrimStart | scan.py:250 | `lstrip` drops exactly the leading run of whitespace: Python's `str.isspace` set for a `str`, the ASCII set for `bytes` |
| Strings.TrimEnd | scan.py:250 | `rstrip` drops exactly the trailing run of whitespace, with the same two whitespace sets |
| Strings.ContainsIff | scan.py:238 | substring containment is occurrence at some index |
| Strings.RemoveChar | scan.py:112 | `replace(c, "")` removes every c and keeps every other character |
| Strings.RemoveCharConcat | scan.py:112 | removing a character distributes over concatenation, so the kept characters stay in order and keep their number |
| Strings.RemoveCharSingle | scan.py:112 | a single character is dropped exactly when it is c |
| Strings.SplitOn | scan.py:390 | `split(sep)` gives at least one piece |
| Strings.JoinSplitOn | scan.py:390 | joining the pieces of a split with the separator gives the input back |
| Strings.SplitOnJoin | scan.py:150 | splitting a join recovers the pieces when none holds the separator |
| Strings.BeforeLast | scan.py:399 | `rsplit(pat, 1)[0]` is a prefix of the input |
| Strings.NatToStringRoundTrip | scan.py:204 | the decimal numeral written in a report line reads back as the count |
| Strings.NatToStringInjective | scan.py:204 | different counts are written differently |
| Strings.IndexOfChar | scan.py:401 | the first ':' of the path, where `split(':', 1)` cuts |
| Mirai.StripHexTagsPlain | scan.py:398 | text without '[' has no tag to remove |
| Mirai.StripHexTagsTag | scan.py:398 | a tag `[h]` of lower-case hex digits is removed |
| Mirai.StripHexTags | scan.py:398 | removing tags never lengthens the text |
| Mirai.CallLineParts | scan.py:382-390 | the normalised line splits into at least one part |
| Mirai.ModuleOfSpec | scan.py:399 | the module is the function path without its last `::segment`, or the path itself when it holds no `::` |
| Mirai.ModuleOf | scan.py:399 | the module is a prefix of the function path |
| Mirai.SplitLocation | scan.py:400-401 | the location cuts at its single '/' and its first ':' into directory, file and line:column |
| Mirai.FrameOfParts | scan.py:392-402 | None exactly when there are not six parts; otherwise the function without hex tags, its module, and the location re-assembled from directory, file and position |
| Mirai.ParseMiraiCallLine | scan.py:381-402 | None exactly when the normalised line does not split into six parts |
| Mirai.FrameOfPartsShape | scan.py:381-402 | a frame `crate[hash]::fun` at `dir/file:line:col` gives module `crate`, function `crate::fun`, directory `dir`, file `file` and location `line:col` |
| Mirai.NumCpusExample | scan.py:395-402 | the documented frame of `num_cpus[1818]::get_num_physical_cpus` at `src/lib.rs:324:20` parses to `num_cpus`, `num_cpus::get_num_physical_cpus`, `src`, `lib.rs`, `324:20` |
| Mirai.PatternOfSpec | scan.py:419-422 | the pattern is a prefix of the callee module, and a one-segment module is its own pattern |
| Mirai.PatternOfShapes | scan.py:419-422 | `a::b::rest` and `a::b` have pattern `a::b`; `a` has pattern `a` |
| Mirai.PatternOf | scan.py:419-422 | the first two segments of the callee module; its properties are those of `PatternOfSpec` and `PatternOfShapes` |
| Mirai.CallPathAsEffect | scan.py:404-434 | the effect takes crate, callee, file and location from frame 0, module and caller from frame 1 ("Unknown" for a chain of one), the pattern from the callee module, and the directory under the crate directory |
| Mirai.AsWrittenAgrees | scan.py:404-434 | the function as written returns exactly for chains of two or more frames in one directory, and then agrees with the corrected one |
| Mirai.AsWrittenSingleFrameRaises | scan.py:414-428 | as written, a chain of one frame raises on the unbound caller module |
| Mirai.AsWrittenDirsDifferRaises | scan.py:412-413 | as written, frames in different directories raise on the undefined `src_dir1` |
| Mirai.CallPathAsEffectAsWritten | scan.py:404-434 | the function as written, with its two raises; compared with the corrected one by `AsWrittenAgrees` |
| Mirai.TraceStepSpec | scan.py:446-458 | one trace line keeps closed chains non-empty and appends the line's frame, if it parses, to the frames seen |
| Mirai.TraceRun | scan.py:442-458 | the line loop's state after each line; `TraceRunSpec`, `NoMarkerOneChain` and `MarkerSplits` state what it computes |
| Mirai.TraceRunSpec | scan.py:442-458 | the loop loses and reorders no parsed frame: the closed chains followed by the open one are the parsed frames, and no closed chain is empty |
| Mirai.AllChainsSpec | scan.py:442-460 | the chains handed on are all non-empty and together hold every parsed frame, in order |
| Mirai.NoMarkerOneChain | scan.py:442-460 | a trace without a `Call Path:` line is handed on as one chain holding all its parsed frames, or as nothing when none parses |
| Mirai.MarkerSplits | scan.py:447-451 | a `Call Path:` line cuts the trace: the chains of the whole are the chains before the marker followed by the chains after it |
| Mirai.EffectsOfSpec | scan.py:449-460 | as many effects as chains, effect i built from chain i |
| Mirai.ScanTrace | scan.py:442-460 | the line loop yields `EffectsOf` the chains of `TraceRun`: by `AllChainsSpec`, `NoMarkerOneChain` and `MarkerSplits`, one effect per non-empty chain of frames, a chain being cut exactly at each `Call Path:` line and at the end of the trace; each effect is built by the corrected conversion `CallPathAsEffect` |
| Policy.Statement.AllowSimple | rust-src/src/policy.rs:40-44 | an `allow` of the effect path in the region path, for all arguments |
| Policy.Statement.RequireSimple | rust-src/src/policy.rs:45-49 | a `require` of the effect path in the region path, for all arguments |
| Policy.Statement.AllowWith | rust-src/src/policy.rs:50-53 | an `allow` with the given argument pattern |
| Policy.Statement.RequireWith | rust-src/src/policy.rs:54-57 | a `require` with the given argument pattern |
| Policy.Statement.TrustSimple | rust-src/src/policy.rs:58-61 | a `trust` of the region, for all arguments |
| Policy.DisplayKeyword | rust-src/src/policy.rs:24-38 | a displayed statement starts with its keyword, so statements of different kinds never display alike |
| Policy.Policy.constructor | rust-src/src/policy.rs:73-79 | the crate name and version and the policy version, and no statements |
| Policy.Policy.AddStatement | rust-src/src/policy.rs:86-88 | appends exactly the statement at the end and changes nothing else |
| Policy.Policy.AllowSimple | rust-src/src/policy.rs:89-91 | appends exactly one simple `allow` |
| Policy.Policy.RequireSimple | rust-src/src/policy.rs:92-94 | appends exactly one simple `require` |
| Policy.Policy.AllowWith | rust-src/src/policy.rs:95-97 | appends exactly one `allow` with arguments |
| Policy.Policy.RequireWith | rust-src/src/policy.rs:98-100 | appends exactly one `require` with arguments |
| Policy.Policy.TrustSimple | rust-src/src/policy.rs:101-103 | appends exactly one `trust` |
| Policy.Insert | rust-src/src/policy.rs:129-142 | `entry(k).or_default().insert(v)` adds v to k's set, creating it if missing, and changes no other key |
| Policy.AllowListContains | rust-src/src/policy.rs:157-174 | Ok exactly when the caller has an allow set holding the effect; otherwise "missing effect" when the set exists and "no allow list" when it does not |
| Policy.MessagesDistinct | rust-src/src/policy.rs:165-171 | the two error kinds can always be told apart |
| Policy.Requirements | rust-src/src/policy.rs:177-182 | the callee's require set, or none when it has no entry; see `CheckEdgeBoolSpec` |
| Policy.CheckEdgeBool | rust-src/src/policy.rs:203-210 | `check_edge_bool`; its meaning is stated by `CheckEdgeBoolSpec` and `CheckEdgeBoolSubset` |
| Policy.CheckEdgeBoolSpec | rust-src/src/policy.rs:177-210 | an edge passes exactly when the callee has no or an empty require set, or the caller's allow set includes it; and exactly when no requirement is unmet |
| Policy.CheckEdgeBoolSubset | rust-src/src/policy.rs:203-210 | an edge passes exactly when the callee's requirements are among the caller's allowed effects |
| Policy.PolicyLookup.Empty | rust-src/src/policy.rs:117-119 | the empty lookup: no allow sets, no require sets |
| Policy.PolicyLookup.AddStatement | rust-src/src/policy.rs:127-147 | the lookup becomes `AddStatementTo` of the old one and the statement |
| Policy.PolicyLookup.MarkOfInterest | rust-src/src/policy.rs:152-154 | the lookup becomes `MarkOfInterestIn` of the old one and the callee |
| Policy.PolicyLookup.FromPolicy | rust-src/src/policy.rs:120-126 | a fresh lookup equal to folding `add_statement` over the statements in order |
| Policy.AddStatementTo | rust-src/src/policy.rs:127-147 | `add_statement` on the lookup's value; its effect is stated by `AddAllowSpec` and `AddRequireSpec` |
| Policy.MarkOfInterestIn | rust-src/src/policy.rs:152-154 | `mark_of_interest` on the lookup's value; its effect is stated by `MarkOfInterestSpec` |
| Policy.FromStatements | rust-src/src/policy.rs:120-126 | the fold of `add_statement` over the statements; what it allows and requires is stated by `FromStatementsSpec` |
| Policy.PolicyLookup.CheckEdge | rust-src/src/policy.rs:187-198 | appends one "not allowed" error per unmet requirement, in the order the require set is visited, after the existing errors; adds none exactly when `check_edge_bool` holds; only reads the lookup |
| Policy.CheckEdgeCount | rust-src/src/policy.rs:187-198 | `check_edge` reports exactly as many errors as there are unmet requirements, one for each |
| Policy.DistinctCard | rust-src/src/policy.rs:191 | a visit order without repeats of a set is as long as the set is large |
| Policy.AddAllowSpec | rust-src/src/policy.rs:129-133 | an `allow` puts the effect in the region's allow set and changes nothing else |
| Policy.AddRequireSpec | rust-src/src/policy.rs:134-142 | a `require` puts the effect in both the region's require set and its allow set |
| Policy.MarkOfInterestSpec | rust-src/src/policy.rs:152-154 | marking c adds c to its own requirements and changes nothing else |
| Policy.MarkedNeedsAllow | rust-src/src/policy.rs:152-154 | after marking c, an edge into c passes exactly when the caller is allowed c and all of c's other requirements |
| Policy.AllowMonotone | rust-src/src/policy.rs:129-133 | allowing more never makes a passing edge fail |
| Policy.AllowOnlyRequiresNothing | rust-src/src/policy.rs:120-133 | a policy of `allow` statements only has no requirements |
| Policy.AddStatementKeys | rust-src/src/policy.rs:127-142 | one more statement, seen through the allowed effects and the requirements of every function |
| Policy.FromStatementsSpec | rust-src/src/policy.rs:120-142 | the lookup built from a policy allows and requires exactly what its statements allow and require |
| Policy.ExLookupEdge | rust-src/src/policy.rs:252-259 | an edge in the test lookup passes exactly when the callee's requirements plus its mark are among the caller's allowed effects |
| Policy.TrivialTest | rust-src/src/policy.rs:261-279 | with no statements an edge between plain functions passes and an edge into an effect fails |
| Policy.OneStatementEdge | rust-src/src/policy.rs:252-259 | an edge in the test lookup of a one-statement policy |
| Policy.TwoStatementEdge | rust-src/src/policy.rs:252-259 | an edge in the test lookup of a two-statement policy |
| Policy.AllowTest | rust-src/src/policy.rs:281-301 | the outcomes of the allow test |
| Policy.RequireTest | rust-src/src/policy.rs:303-326 | a requirement on foo makes `bar -> foo` fail while `foo -> bar` passes, with the other outcomes of the test |
| Policy.Lookup1Test | rust-src/src/policy.rs:328-345 | the outcomes of the first lookup test |
| Policy.Lookup2Keys | rust-src/src/policy.rs:349-356 | what the lookup of the second lookup test allows and requires of every function |
| Policy.Lookup2Edge | rust-src/src/policy.rs:348-377 | an edge in the lookup of the second lookup test |
| Policy.Lookup2Test | rust-src/src/policy.rs:347-377 | the outcomes of the second lookup test |
| Policy.CycleTest | rust-src/src/policy.rs:379-397 | two functions that require the same effect may call each other |
| Scanner.LoCTracker.constructor | src/scanner.rs:38-40 | a new tracker has all counters at zero |
| Scanner.LoCTracker.Add | src/scanner.rs:43-54 | one more instance; a span on one line adds a zero-size line, any other adds its line count; the other counter is unchanged, and the tracker invariant is kept |
| Scanner.LoCTracker.IsEmpty | src/scanner.rs:57-59 | empty exactly when no span was added, and then the line count is zero |
| Scanner.LoCTracker.AsLoc | src/scanner.rs:64-66 | the line count is at least the number of spans, and zero exactly when no span was added |
| Scanner.AddFnDecTo | src/scanner.rs:131-143 | the name gets the next node index and its location; it joins the public functions only when public; nothing else changes, and the graph stays well formed |
| Scanner.AddEdgeTo | src/scanner.rs:834-843 | an edge is added exactly when caller and callee both have nodes, otherwise nothing changes |
| Scanner.UnsafeBlocks | src/scanner.rs:106-114 | exactly the saved blocks of an unsafe expression or an unsafe function |
| Scanner.SkipAttr | src/scanner.rs:258-273 | an attribute skips exactly when it is a `cfg` list whose tokens are a skipped configuration |
| Scanner.SkipAttrsSpec | src/scanner.rs:276-278 | a list skips exactly when some attribute skips |
| Scanner.NoCfgNoSkip | src/scanner.rs:258-278 | a list without a `cfg` attribute never skips |
| Scanner.SkipCfgExamples | src/scanner.rs:253-256 | `target_os = "linux"` and `not (feature = …)` are skipped; a plain feature is not |
| Scanner.SkipCfg | src/scanner.rs:253-256 | the skipped configurations; its cases are stated by `SkipCfgExamples` |
| Scanner.SkipAttrs | src/scanner.rs:276-278 | `skip_attrs`; stated by `SkipAttrsSpec` |
| Scanner.RecordEffect | src/scanner.rs:815-821 | the effect is appended to the results and, when a block is open, to the innermost block; nothing else changes |
| Scanner.AppendToTop | src/scanner.rs:815-817 | only the innermost block gains the effect |
| Scanner.ScanStmtOn | src/scanner.rs:486-500 | a statement keeps the scope except for new effects in the innermost block, and adds exactly its effects and blocks |
| Scanner.ScanStmtsOn | src/scanner.rs:470-472 | a body keeps the scope and adds exactly its statements' effects and blocks |
| Scanner.EnterUnsafe | src/scanner.rs:763-773 | one more unsafe level, and a new unsafe block for the innermost function |
| Scanner.EnterFn | src/scanner.rs:443-467 | the declaration is pushed with a block of its kind, and an `unsafe fn` adds an unsafe level |
| Scanner.SaveTop | src/scanner.rs:478-479 | the innermost block is popped and saved in the results |
| Scanner.LeaveUnsafe | src/scanner.rs:777-779 | the block is saved and the unsafe level dropped |
| Scanner.LeaveFn | src/scanner.rs:474-483 | the function is popped, its block saved, and an `unsafe fn`'s level dropped |
| Scanner.ScanUnsafeOn | src/scanner.rs:763-780 | the scope is restored on exit; exactly one more saved block, of kind unsafe expression, for the enclosing function, besides those of the body |
| Scanner.ScanFnOn | src/scanner.rs:437-484 | the scope is restored on exit; exactly one more saved block, of the function's kind and for that function, besides those of the body |
| Scanner.ScanItemOn | src/scanner.rs:230-250 | the scope is restored on exit; a skipped or foreign item adds nothing; the item adds exactly its effects and blocks |
| Scanner.ScanItemsOn | src/scanner.rs:221-228 | the scope is restored; the items add exactly their effects and blocks |
| Scanner.UnsafeDepthPositive | src/scanner.rs:870-871 | the unsafe level is positive exactly when some open block is unsafe |
| Scanner.EnterKeepsScopeValid | src/scanner.rs:459-467 | entering a function or an unsafe block keeps the counter in step with the open blocks |
| Scanner.SameScopeKeepsScopeValid | src/scanner.rs:486-495 | a statement keeps the counter in step |
| Scanner.UnsafeCallNeedsUnsafeScope | src/scanner.rs:865-915 | a call is recorded for the innermost function and flagged unsafe only inside an open unsafe block or unsafe function; a tuple-field call is flagged exactly there |
| Scanner.PushEffectCaller | src/scanner.rs:794-821 | one effect appended and no block saved nor edge added; outside any function the caller is the callee's enclosing path |
| Scanner.PushEffectOn | src/scanner.rs:794-821 | `push_effect` on the scan state; stated by `PushEffectCaller` |
| Scanner.PushCallsiteOn | src/scanner.rs:825-863 | `push_callsite` on the scan state; stated by `DeclaredCallAddsEdge` and `UndeclaredCallNoEdge` |
| Scanner.ScanExprCallOn | src/scanner.rs:865-915 | the three call forms on the scan state; stated by `UnsafeCallNeedsUnsafeScope` |
| Scanner.RecordEffectKeepsRecorded | src/scanner.rs:814-820 | every effect of a block stays in the results' effect list |
| Scanner.StmtKeepsRecorded | src/scanner.rs:486-500 | a statement keeps every block's effects in the results |
| Scanner.StmtsKeepRecorded | src/scanner.rs:470-472 | a body keeps every block's effects in the results |
| Scanner.ItemKeepsRecorded | src/scanner.rs:230-250 | an item keeps every block's effects in the results |
| Scanner.ItemsKeepRecorded | src/scanner.rs:221-228 | a file keeps every block's effects in the results |
| Scanner.TopLevelInvariant | src/scanner.rs:204-208 | from top level, with both stacks empty and the counter zero, scanning declarations returns to top level |
| Scanner.CallersSnoc | src/scanner.rs:116-129 | recording an effect adds it to its callee's callers and to no other's |
| Scanner.Callers | src/scanner.rs:116-129 | the recorded effects whose callee is the given path; how it grows is stated by `CallersSnoc` |
| Scanner.UnsafeBlocksSnoc | src/scanner.rs:106-114 | a saved block joins the unsafe set exactly when it is not a plain function's |
| Scanner.SavedBlockKind | src/scanner.rs:437-484 | an unsafe block and an `unsafe fn` add their block to the unsafe set; a plain function does not |
| Scanner.DeclaredCallAddsEdge | src/scanner.rs:834-862 | a call between two declared functions adds the edge between their nodes |
| Scanner.UndeclaredCallNoEdge | src/scanner.rs:834-862 | a call whose caller or callee was never declared records its effect but no edge |
| Scanner.ScanResults.constructor | src/scanner.rs:102-104 | nothing recorded, and an empty graph |
| Scanner.ScanResults.AddFnDec | src/scanner.rs:131-143 | the results become `AddFnDecTo` of the old ones |
| Scanner.ScanResults.GetCallers | src/scanner.rs:116-129 | exactly the recorded effects whose callee is the given path |
| Scanner.Scanner.constructor | src/scanner.rs:186-201 | empty scopes and a zero counter over the given results, with the default sinks |
| Scanner.Scanner.AddSinks | src/scanner.rs:210-212 | the sinks grow by the new ones; the scan state is unchanged |
| Scanner.Scanner.ScanFile | src/scanner.rs:221-228 | the state after the file is `ScanItemsOn`; the top-level invariant and the well-formedness of the state hold again afterwards |
| Scanner.Scanner.ScanItems | src/scanner.rs:221-228 | the declarations scanned in order |
| Scanner.Scanner.ScanItem | src/scanner.rs:230-250 | one declaration scanned as `ScanItemOn` says |
| Scanner.Scanner.ScanFn | src/scanner.rs:437-484 | `scan_fn` changes the state as `ScanFnOn` says |
| Scanner.Scanner.EnterFnScope | src/scanner.rs:443-467 | the start of `scan_fn`, as `EnterFn` says |
| Scanner.Scanner.LeaveFnScope | src/scanner.rs:474-483 | the end of `scan_fn`, as `LeaveFn` says |
| Scanner.Scanner.ScanStatements | src/scanner.rs:470-472 | the statement loop, as `ScanStmtsOn` says |
| Scanner.Scanner.ScanFnStatement | src/scanner.rs:486-500 | one statement, as `ScanStmtOn` says |
| Scanner.Scanner.ScanUnsafeBlock | src/scanner.rs:763-780 | `scan_unsafe_block`, as `ScanUnsafeOn` says |
| Scanner.Scanner.EnterUnsafeScope | src/scanner.rs:763-773 | the start of `scan_unsafe_block`, as `EnterUnsafe` says |
| Scanner.Scanner.LeaveUnsafeScope | src/scanner.rs:777-779 | the end of `scan_unsafe_block`, as `LeaveUnsafe` says |
| Scanner.Scanner.ScanExprCall | src/scanner.rs:865-915 | the three call forms, as `ScanExprCallOn` says |
| Scanner.Scanner.PushEffect | src/scanner.rs:794-821 | `push_effect`, as `PushEffectOn` says |
| Scanner.Scanner.PushCallsite | src/scanner.rs:825-863 | `push_callsite`, as `PushCallsiteOn` says |
| Util.SanitizeCommaIdempotent | src/util.rs:25-30 | the result holds no comma, and sanitising twice is sanitising once |
| Util.WarnOk | src/util.rs:50-55 | an `Ok` becomes its value and an error becomes None |
| Util.OkValuesSpec | src/util.rs:50-55 | dropping errors keeps as many values as there are `Ok` items, each value coming from an `Ok` item |
| Util.OkValues | src/util.rs:50-55 | dropping errors never lengthens the stream |
| Util.OkValuesConcat | src/util.rs:50-55 | dropping errors distributes over concatenation, so the kept values stay in order |
| Util.OkValuesSingle | src/util.rs:50-55 | one item gives its value when it is `Ok` and nothing otherwise |
| Util.OkValuesAllOk | src/util.rs:50-55 | a stream without errors loses nothing and keeps its order |
| Util.FreshIter | src/util.rs:62-67 | the collected items are the same items in the same order |
| Util.VersionStart | src/util.rs:151-158 | the loop stops at the largest index whose suffix is a version, so the shortest such suffix, and finds none exactly when no suffix is a version |
| Util.PackageInfoFromString | src/util.rs:148-161 | the search from the shortest suffix returns what `PackageInfo` says |
| Util.PackageInfo | src/util.rs:148-161 | the name and version at the shortest version suffix; stated by `PackageInfoRoundTrip` and `PackageInfoErr` |
| Util.PackageInfoRoundTrip | src/util.rs:151-156 | on success the name is a crate name and the version a version, and name, "-" and version give the package string back (a version-only string has an empty name) |
| Util.PackageInfoErr | src/util.rs:151-160 | "not a package" exactly when no suffix is a version |
| Util.LibcExample | src/util.rs:145-147 | "libc-0.4.8-pre18" is crate libc, version 0.4.8-pre18 |

## Left out

- File and process I/O is not modelled. This covers dependency checks, copying, downloading, reading the crate list, saving results and summaries, the directory walk of `scan_crate`, the `cargo mirai` subprocess and its environment, and `view_callgraph_mirai`. Given sequences of lines, or of effects per crate, stand in for what would be read.
- Logging is not modelled. Warnings are modelled only where a property is about them (`parse_use`); elsewhere they are dropped.
- The regular expressions of `scan_rs` (comment stripping) and `scan_file` (`use` selection) are the parameters `clean` and `select`. Regular-expression semantics are not modelled.
- The watchlist's `re.search` is modelled as substring search. `Watchlist.WatchlistIsLiteral` shows every entry is literal.
- The in-place `+=` on the standard watchlist in `main` aliases the module list. A single run cannot observe this, so it is not modelled.
- UseParser.ExpandRender: covers trees written in the canonical form (", " between subtrees, no space after '{'). Other spacing, such as `a::{b,c}` or `a::{ b }`, is stripped by the loop to the same paths, but no lemma states that for every tree.
- Mirai.ScanTrace: converts each chain with the corrected `CallPathAsEffect`, so on a chain of one frame, or on frames in two directories, it yields an effect where the program as written raises (see "## Findings"); `Mirai.CallPathAsEffectAsWritten` is the conversion as written.
- Mirai.ParseMiraiCallLine: requires a location with one '/' and a ':' after it whenever the line has six parts. Python raises on any other location, and that crash is not modelled.
- UseParser.ParseUse: requires a non-empty statement, as Python's `expr[-1]` raises on an empty one.
- Summary.MakeSummary: requires its sanity check to hold. A failing Python `assert` stops the program, and that is not modelled.
- Policy.PolicyLookup.AddStatement: requires a statement other than `trust`, whose handling is `unimplemented!()`. `Policy.PolicyLookup.FromPolicy` therefore requires a policy without `trust`.
- Policy serialisation (toml and serde) and the serialisation tests are not modelled; they belong to foreign crates.
- `IdentPath` and `FnCall` are defined outside the shown source. They are modelled as text and as a path with an argument pattern.
- The `Display` of a `FnCall` is the parameter `show`.
- Policy.PolicyLookup.CheckEdge: the order in which a `HashSet` is visited is not specified, so the method chooses an order and returns it as a ghost value; the errors are stated for that order.
- Scanner.LoCTracker.Add: requires `start <= end`. A span never ends before it starts, and the `usize` subtraction would panic otherwise.
- The `syn` syntax tree is reduced to declarations (functions, modules, impl blocks, foreign blocks) and body statements (calls, other effects, unsafe blocks, nested declarations). The expression walk that finds these in arbitrary expressions, local bindings and closures is not modelled.
- Name resolution is not modelled. What the resolver answers for a call is part of the call's form (`PathCall`, `NamedFieldCall`, `IndexFieldCall`, `MethodCall`, `UnresolvedCall`), and is given as input; the resolver's scope push and pop are left out with it.
- The classification of a call as a sink into a new effect type is not modelled, because effect.rs is not part of this model. The `sinks` set is kept but not consulted.
- The call graph is modelled as node and edge lists with a name-to-index map; petgraph's internals are not modelled.
- The `total_loc` and `skipped_*` trackers inside `ScanResults` are not modelled. `LoCTracker` itself is.
- The unsafe trait and impl lists are not modelled. Neither are assignment targets of `scope_assign_lhs` and union fields; these belong to the expression walk.
- The crate-level driver functions `scan_file`, `try_scan_file`, `scan_crate_with_sinks` and `scan_crate` in scanner.rs are not modelled; they do file I/O.
- `init_logging`, the walkdir-based `fs` helpers, `load_cargo_toml` and `sanitize_path` are not modelled; they do I/O or foreign parsing.
- Version and name parsing, which `package_info_from_string` delegates to `cargo_lock`, are the predicates `isVersion` and `isName`. A version is kept as its text.
- The binaries under rust-src/src/bin are not part of this model.

## Findings

| source | as written | input that shows it | evidently intended | confidence | as-written member | corrected member |
|---|---|---|---|---|---|---|
| scan.py:414-428 | a chain of one frame assigns `caller` and `caller_path`, but the effect is built from `caller_mod` and `caller_fun`, which are unbound, so the function raises | a MIRAI call path with a single `Call:` line | the caller and its module are "Unknown", as the assignments in the else branch indicate | not executed | Mirai.AsWrittenSingleFrameRaises | Mirai.CallPathAsEffect |
| scan.py:412-413 | the warning for frames in different source directories formats `src_dir1`, which is never defined, so the function raises instead of warning | a chain whose first two frames have `src` and `tests` as their directories | warn with `src_dir` and `src_dir2`, then build the effect | not executed | Mirai.AsWrittenDirsDifferRaises | Mirai.CallPathAsEffect |
