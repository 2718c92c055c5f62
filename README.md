# lucifer core in Dafny

This project models the core of lucifer. lucifer reads the output of `lsof -E`, taken as tagged lines with one field per line, into process records. It then queries and prints them.

- **The line parser** is a state machine. Every line starts with a tag: `c` command, `p` pid, `u` user, `f` file descriptor, `t` type, `n` name. A `ParseState` accumulates the record in progress and the file still pending. A `p` line while a record is in progress is a record boundary: it hands out that record with its files sorted by name. `finish` flushes the last pending file at end of input.
- **The record store** (`storeRecord`) keeps one record per pid. On a conflict it keeps the one with more files.
- **An older revision of the parser** lives in `Main.kt`. It has its own records (pid 0 by default, user kept as text) and a loop that lets the last record of a pid win.
- **The report queries** of `ProcessesQuerier`:
  - records by file count;
  - the top commands;
  - file types;
  - TCP/UDP connections;
  - per-user views.
- **The fixed-width table**: `Table.column`, `printRow`, `printHeading`.

Layout, by module:

| file | module | models |
|---|---|---|
| `strings.dfy` | `Strings` | Kotlin's `toInt`, `Int.toString`, `String.compareTo` and `padEnd` |
| `sorting.dfy` | `Sorting` | the sort behind `sortedBy` / `sortedByDescending` |
| `collections.dfy` | `Collections` | the `groupBy` key order, `toSet`, `filter`, `take`, counting and sums |
| `fields.dfy` | `Fields` | the `Field` / `Col` tag table |
| `file_records.dfy` | `FileRecords` | `model/FileRecord.kt`, the pending-file flush, sorting files by name |
| `process_records.dfy` | `ProcessRecords` | `model/ProcessRecord.kt` |
| `parse_state.dfy` | `ParseStates` | `model/ParseState.kt`, a class of five mutable fields with a value view |
| `lsof_parser.dfy` | `LsofParser` | `LSOFParser.kt` |
| `lsof_properties.dfy` | `LsofProperties` | properties of `LSOFParser.kt` over whole line streams and over the store |
| `legacy_main.dfy` | `LegacyMain` | the parser, the `Col` table, the data classes and the store loop of `Main.kt` |
| `querier.dfy` | `ProcessesQuerier` | `service/ProcessesQuerier.kt` |
| `table.dfy` | `TableView` | `view/Table.kt` |

Each imperative operation is written twice:

- as a function on values (`Step`, `Finished`, `Stored`, `Row`), which states the meaning;
- as a method on the mutable object (`ParseLine`, `Finish`, `StoreRecord`, `PrintRow`), whose `ensures` ties the new state and the result to that function.

The properties are lemmas about the functions.

Decisions where the code or its revisions leave a choice:

- **The `u` mutator.** In `LSOFParser.kt` it assigns the line's text to the integer field `ProcessRecord.user`, which does not type-check. It is modelled as the same `toInt()` conversion as `p`, so a non-integer user fails the line like a non-integer pid. `Main.kt` keeps the user as text, and so does `LegacyMain`.
- **The internet filter.** `ProcessesQuerier.kt` reads `file.protocol`, a field that `FileRecord` does not have and that no tag sets. The filter therefore takes a `protocol` accessor on files as a parameter.
- **The record boundary.** A boundary resets only the record of the parse state. The pending descriptor, type and name stay as they were. So the record that ends at a `p` line never holds its own last file: that file is still pending and goes to the next record, flushed by the next `f` line or by `finish`. `LsofProperties.ExampleStream` proves this on the example stream `p101, cshell, u33, f5, tREG, n/tmp/a, p102, c bash, u33, f3, tREG, n/tmp/b`: pid 101 ends up with no files and pid 102 with both.
- **Two parsers.** `Main.kt` keeps an older copy of the parser. `LegacyMain` models it on its own, so `LegacyMain.Finished` and `LsofParser.Finished` are deliberately the same definition over two different state types.
- **Tags.** The parsers know only the six tags `c`, `p`, `u`, `f`, `t` and `n`. Every other line, such as the parent pid (`R`) or protocol (`P`) lines of `lsof`, changes nothing.
- **Map iteration order.** The keys of `data` are iterated in the order given by `order`, a list of every key once. This is the insertion order of Kotlin's `LinkedHashMap`.
- **Resolvers.** The user and process resolvers are lookup functions. They are `int -> Option<string>` and `int -> Option<M>`, for any metadata type `M`. In Kotlin, `UserResolver.user` always returns a `String`, and `EnhancedProcess.userName` is a non-null `String` (ProcessesQuerier.kt:91). There the `?: it.key.toString()` fallback of `recordsByUserByTypes` and `internetConnectionsByUser` never fires. `Option<string>` generalises this to a resolver that can find no name; the Kotlin resolver is the case that always returns `Some`.

## Model

| member | source | states |
|---|---|---|
| Strings.ParseInt | src/luciferMain/kotlin/LSOFParser.kt:127 | `toInt` succeeds exactly on an optional sign followed by at least one digit whose signed decimal value is in the `Int` range, and then returns that value; it fails on the empty string and on a sign alone |
| Strings.ParseIntDigits | src/luciferMain/kotlin/LSOFParser.kt:127 | a digit string reads as its decimal value when that fits in an `Int`; a leading `0` or `+` changes nothing, and a leading `-` negates the value |
| Strings.LeadingZeroValue | src/luciferMain/kotlin/LSOFParser.kt:127 | a leading zero does not change a digit string's value |
| Strings.IntToStringRoundTrip | src/luciferMain/kotlin/service/ProcessesQuerier.kt:49 | the decimal label `id.toString()` of a user id reads back as that id |
| Strings.IntToStringInjective | src/luciferMain/kotlin/service/ProcessesQuerier.kt:49 | two different ids never get the same fallback label |
| Strings.StrLeTotal | src/luciferMain/kotlin/LSOFParser.kt:87 | any two file names compare one way or the other |
| Strings.StrLeTransitive | src/luciferMain/kotlin/LSOFParser.kt:87 | the name order used by `sortedBy { it.name }` chains |
| Strings.StrLeAntisymmetric | src/luciferMain/kotlin/LSOFParser.kt:87 | names that compare both ways are equal |
| Strings.Spaces | src/luciferMain/kotlin/view/Table.kt:22 | `"".padEnd(n, ' ')` is exactly `n` spaces |
| Sorting.SortBy | src/luciferMain/kotlin/service/ProcessesQuerier.kt:13-14 | the result is ordered by the selector's order and is a permutation of the input |
| Collections.Distinct | src/luciferMain/kotlin/service/ProcessesQuerier.kt:28 | the group keys have no repeats and are exactly the elements of the input |
| Collections.DistinctOrder | src/luciferMain/kotlin/service/ProcessesQuerier.kt:28 | the group keys come in the order of their first occurrence in the input |
| Collections.FilterCount | src/luciferMain/kotlin/service/ProcessesQuerier.kt:57 | `filter` keeps every occurrence of an element that satisfies the predicate and none of one that does not |
| Collections.Filter | src/luciferMain/kotlin/service/ProcessesQuerier.kt:55-57 | `filter` keeps exactly the elements that satisfy the predicate, and no more than there were |
| Collections.Count | src/luciferMain/kotlin/service/ProcessesQuerier.kt:29-30 | a group's size is the number of occurrences of its key |
| Collections.Take | src/luciferMain/kotlin/service/ProcessesQuerier.kt:31 | `take(n)` is the first `min(n, size)` elements, unchanged |
| Fields.FromPrefix | src/luciferMain/kotlin/LSOFParser.kt:141-145 | a character names field `f` exactly when it is `f`'s prefix; any other character names no field |
| Fields.LinePrefix | src/luciferMain/kotlin/LSOFParser.kt:82 | a non-empty line's tag is its first character; the empty line reads as `'0'`, which is no field's prefix |
| Fields.LineValue | src/luciferMain/kotlin/LSOFParser.kt:98 | the value is the text after the tag, or `""` for a line of at most one character |
| FileRecords.NameOrder | src/luciferMain/kotlin/LSOFParser.kt:87 | comparing file records by name is a total preorder, so the sort by name is well defined |
| FileRecords.SortedByName | src/luciferMain/kotlin/LSOFParser.kt:87 | `files.sortedBy { it.name }` is ordered by name and is a permutation of the files |
| ParseStates.ParseState.constructor | src/luciferMain/kotlin/model/ParseState.kt:6-10 | the five fields hold the values given |
| ParseStates.ParseState.New | src/luciferMain/kotlin/model/ParseState.kt:13 | `new()` holds a default record (pid -1, parent pid -1, command "", user -1, no files), is not initialized, and has nothing pending |
| LsofParser.Mutate | src/luciferMain/kotlin/LSOFParser.kt:124-139 | each mutator's effect: `p`/`u` fail on a non-integer and leave the state as it was; `f` with a pending descriptor appends exactly that file (missing type or name as `"none"`) and clears type and name; `f` without one appends nothing; every mutator sets only its own field; only `f` touches the file list |
| LsofParser.Step | src/luciferMain/kotlin/LSOFParser.kt:79-107 | an unknown or empty tag changes nothing and yields nothing; a known tag sets `initialized`; the line fails exactly for a `p`/`u` value that is not an integer; a record is handed out exactly at a `p` line of an initialized state, and it is the record in progress with its files sorted by name; the new record holds only the new pid; the pending fields survive; a boundary whose pid is not an integer drops the record in progress; every other known line runs its field's mutator on the text after the tag and hands out nothing; an error names the field of the line's tag |
| LsofParser.Finished | src/luciferMain/kotlin/LSOFParser.kt:12-19 | `finish` returns nothing exactly for a state never initialized; otherwise it flushes the pending file, returns the record unsorted, and leaves `""` pending; the flush clears type and name, which otherwise stay as they were |
| LsofParser.Stored | src/luciferMain/kotlin/LSOFParser.kt:56-74 | the keys gain `r.pid` and nothing else changes; the pid keeps its existing record only if that one has strictly more files, otherwise it gets `r` |
| LsofParser.ApplyMutator | src/luciferMain/kotlin/LSOFParser.kt:126-139 | running a mutator on the `ParseState` object does what `Mutate` says on its value |
| LsofParser.LSOFParser.constructor | src/luciferMain/kotlin/LSOFParser.kt:8-10 | a new parser has an empty record store |
| LsofParser.LSOFParser.ParseLine | src/luciferMain/kotlin/LSOFParser.kt:79-107 | updates the given state in place, or a fresh `ParseState.new()` when none is given, exactly as `Step` |
| LsofParser.LSOFParser.Finish | src/luciferMain/kotlin/LSOFParser.kt:12-19 | updates the state and returns the record exactly as `Finished` |
| LsofParser.LSOFParser.StoreRecord | src/luciferMain/kotlin/LSOFParser.kt:56-74 | the new store is `Stored` of the old one |
| LsofProperties.OneRecordPerPidLine | src/luciferMain/kotlin/LSOFParser.kt:86-95 | once a record is in progress, the number of records handed out equals the number of `p` lines |
| LsofProperties.FirstPidLineEmitsNothing | src/luciferMain/kotlin/LSOFParser.kt:86-95 | a stream that starts with `p` hands out one record fewer than it has `p` lines |
| LsofProperties.RunAppend | src/luciferMain/kotlin/LSOFParser.kt:56-107 | parsing and storing `a + b` is storing what `a` hands out, then going on with `b` from the state `a` left |
| LsofProperties.PendingFileMovesToNextRecord | src/luciferMain/kotlin/LSOFParser.kt:86-137 | a `p` line hands out the record without its pending file, keeps the descriptor, and the next `f` line puts that file into the new record |
| LsofProperties.PendingFileFlushedByFinish | src/luciferMain/kotlin/LSOFParser.kt:12-19 | a file pending at the last `p` line ends up in the record `finish` returns |
| LsofProperties.FinishTwiceAddsEmptyFile | src/luciferMain/kotlin/LSOFParser.kt:12-19 | a second `finish` appends the file `("", "none", "none")` |
| LsofProperties.StepPlainLine | src/luciferMain/kotlin/LSOFParser.kt:96-103 | a line of a tag other than `p` and `u` sets `initialized`, runs its mutator on the text after the tag, and hands out nothing |
| LsofProperties.OneFileLines | src/luciferMain/kotlin/LSOFParser.kt:129-139 | the lines `f`, `t`, `n` flush what was pending and leave exactly one complete file pending |
| LsofProperties.TwoFilesInOrder | src/luciferMain/kotlin/LSOFParser.kt:129-137 | two files given one after the other end up in the record in arrival order |
| LsofProperties.TwoFilesLines | src/luciferMain/kotlin/LSOFParser.kt:129-137 | the six lines of two files leave the first file in the record and the second one pending |
| LsofProperties.MissingTypeAndNameAreNone | src/luciferMain/kotlin/LSOFParser.kt:132 | a file with no `t` or `n` line gets `"none"` for its type and name |
| LsofProperties.ExampleStream | src/luciferMain/kotlin/LSOFParser.kt:79-107 | on `p101 … n/tmp/a p102 … n/tmp/b`, pid 101 is stored with no files and pid 102 with both files in arrival order |
| LsofProperties.StoreIdempotent | src/luciferMain/kotlin/LSOFParser.kt:56-74 | storing the same record twice is storing it once |
| LsofProperties.StoredAllKeys | src/luciferMain/kotlin/LSOFParser.kt:56-74 | after storing a list of records, the store holds a key exactly for each pid it had or was given |
| LsofProperties.StoredAllKeepsLargest | src/luciferMain/kotlin/LSOFParser.kt:56-74 | the record kept for a pid is the one already stored under it or one of the given records with that pid, and no candidate has more files |
| LsofProperties.LaterRecordWinsTies | src/luciferMain/kotlin/LSOFParser.kt:64-68 | a later record with at least as many files replaces the earlier one |
| LsofProperties.LastLargestWins | src/luciferMain/kotlin/LSOFParser.kt:56-74 | after storing a list of records, a pid holds its last candidate among those with the most files, when the record already stored has no more files than that one |
| LsofProperties.LargerStays | src/luciferMain/kotlin/LSOFParser.kt:64-68 | a stored record with strictly more files than every later candidate for its pid stays |
| LegacyMain.ParseState.New | src/luciferMain/kotlin/Main.kt:219-234 | `new()` of `Main.kt` holds `ProcessRecord()` with pid 0, command "", user "" and no files, not initialized, nothing pending |
| LegacyMain.Mutate | src/luciferMain/kotlin/Main.kt:195-210 | as in `LSOFParser.kt`, except that only `p` can fail and `u` stores the raw text |
| LegacyMain.Step | src/luciferMain/kotlin/Main.kt:13-41 | the same boundary rule and result cases as the newer parser, the same new state after every other known line, and an error only for the `p` field; the fresh record has user `""` |
| LegacyMain.Finished | src/luciferMain/kotlin/Main.kt:43-50 | nothing for a state never initialized, otherwise the last flush and the unsorted record, with `""` pending and type and name cleared by the flush |
| LegacyMain.ApplyMutator | src/luciferMain/kotlin/Main.kt:197-210 | the object-level mutators agree with `Mutate` |
| LegacyMain.ParseLine | src/luciferMain/kotlin/Main.kt:13-41 | the in-place `parseLine` agrees with `Step` |
| LegacyMain.Finish | src/luciferMain/kotlin/Main.kt:43-50 | the in-place `finish` agrees with `Finished` |
| LegacyMain.CollectRecords | src/luciferMain/kotlin/Main.kt:160-176 | the loop over the lines stores exactly what `Run` says, and its `initialized` check never fires |
| LegacyMain.RunIsLastWins | src/luciferMain/kotlin/Main.kt:160-176 | the loop completes exactly when no `p` line fails, and then stores the records handed out, each one replacing the earlier record of its pid |
| LegacyMain.LastWinsValue | src/luciferMain/kotlin/Main.kt:169-176 | a pid is stored exactly when it was already there or some record has it, and it maps to the last record with that pid |
| ProcessesQuerier.Querier.Records | src/luciferMain/kotlin/service/ProcessesQuerier.kt:13-14 | `records` is a permutation of `data.values`, most files first |
| ProcessesQuerier.Querier.ProcessWithMetadata | src/luciferMain/kotlin/service/ProcessesQuerier.kt:76 | null exactly when the pid is not a key; otherwise the stored record with the process resolver's metadata for its pid and the user resolver's name for its user |
| ProcessesQuerier.Querier.NumRecords | src/luciferMain/kotlin/service/ProcessesQuerier.kt:81 | the number of records is the number of keys of `data` |
| ProcessesQuerier.ValuesAreData | src/luciferMain/kotlin/service/ProcessesQuerier.kt:13 | `data.values` has one element per key, and its elements are exactly the map's values |
| ProcessesQuerier.RecordsArePermutation | src/luciferMain/kotlin/service/ProcessesQuerier.kt:13-14 | `records` has one entry per key, it holds each stored record as often as the map does, and file counts never increase along it |
| ProcessesQuerier.CommandCountsSpec | src/luciferMain/kotlin/service/ProcessesQuerier.kt:27-29 | grouping the commands yields each command once, sized by its number of occurrences |
| ProcessesQuerier.CommandCountsOrder | src/luciferMain/kotlin/service/ProcessesQuerier.kt:28 | the command groups come in the order of each command's first occurrence |
| ProcessesQuerier.RankedCommandsSpec | src/luciferMain/kotlin/service/ProcessesQuerier.kt:27-30 | the ranked groups hold every command once, each with its count, largest count first |
| ProcessesQuerier.TopCommandsSpec | src/luciferMain/kotlin/service/ProcessesQuerier.kt:25-33 | `topNCommands(n)` fails exactly for negative `n`; otherwise it returns `min(n, distinct commands)` distinct commands, indexed 0, 1, …, with counts that never increase |
| ProcessesQuerier.TopCommandsOmitted | src/luciferMain/kotlin/service/ProcessesQuerier.kt:25-33 | no command left out occurs more often than any command taken |
| ProcessesQuerier.TypeCountsKeyed | src/luciferMain/kotlin/service/ProcessesQuerier.kt:41-42 | grouping files by type yields each type of the files once, sized by its files |
| ProcessesQuerier.OfTypeCount | src/luciferMain/kotlin/service/ProcessesQuerier.kt:39-42 | the group of a type, after `toSet`, has as many files as there are distinct files of that type |
| ProcessesQuerier.RecordsByTypesSpec | src/luciferMain/kotlin/service/ProcessesQuerier.kt:38-43 | `recordsByTypes`: every file type once, counted by distinct files, counts non-increasing |
| ProcessesQuerier.RecordsByTypesSum | src/luciferMain/kotlin/service/ProcessesQuerier.kt:38-43 | the counts add up to the number of distinct files of the records |
| ProcessesQuerier.UserLabelSpec | src/luciferMain/kotlin/service/ProcessesQuerier.kt:49 | a user's label is the resolved name, or else the id's decimal text, which reads back as the id |
| ProcessesQuerier.ProcessesByFileSizeNumbered | src/luciferMain/kotlin/service/ProcessesQuerier.kt:69-71 | one entry per record, numbered from 0, each with the resolvers' metadata for its pid and name for its user |
| ProcessesQuerier.ProcessesByFileSizeRecords | src/luciferMain/kotlin/service/ProcessesQuerier.kt:69-71 | the entries carry exactly the stored records, each as often as it is stored, most files first |
| ProcessesQuerier.GroupByUserKeyed | src/luciferMain/kotlin/service/ProcessesQuerier.kt:16-17 | `groupBy { it.user }` has one non-empty group per user of the records, holding exactly that user's records |
| ProcessesQuerier.GroupByUserSum | src/luciferMain/kotlin/service/ProcessesQuerier.kt:16-17 | the group sizes add up to the number of records |
| ProcessesQuerier.GroupByUserOrder | src/luciferMain/kotlin/service/ProcessesQuerier.kt:16-17 | each group keeps the order of the grouped list |
| ProcessesQuerier.GroupByUserFirstOrder | src/luciferMain/kotlin/service/ProcessesQuerier.kt:16-17 | the user groups come in the order of each user's first record |
| ProcessesQuerier.RecordsByUserSpec | src/luciferMain/kotlin/service/ProcessesQuerier.kt:13-17 | `recordsByUser`: one group per user of the stored records, exactly that user's records, most files first, all records counted once |
| ProcessesQuerier.InternetConnectionsSpec | src/luciferMain/kotlin/service/ProcessesQuerier.kt:54-58 | exactly the records with a TCP or UDP file, each listed as often as it occurs in the input and paired with those files in their order, the fewest connections first |
| ProcessesQuerier.ConnectionsCounted | src/luciferMain/kotlin/service/ProcessesQuerier.kt:54-58 | a record with a TCP or UDP file is listed as often as it occurs, any other record never |
| ProcessesQuerier.RecordsByUserByTypesSpec | src/luciferMain/kotlin/service/ProcessesQuerier.kt:48-49 | one entry per user, labelled by the user's label, listing exactly the types of that user's files, each once, with the number of distinct files of that type among the user's records, counts non-increasing |
| ProcessesQuerier.InternetConnectionsByUserSpec | src/luciferMain/kotlin/service/ProcessesQuerier.kt:63-64 | one entry per user, labelled by the user's label, listing each of that user's records with TCP or UDP files as often as it is stored, and no other record |
| ProcessesQuerier.UserConnectionsCounted | src/luciferMain/kotlin/service/ProcessesQuerier.kt:63-64 | a user's connections list each of that user's stored records with TCP or UDP files once per occurrence, and no other record |
| TableView.Pad | src/luciferMain/kotlin/view/Table.kt:21-23 | a cell is preceded by `prePadding` spaces when that is not negative, and by nothing otherwise |
| TableView.Cell | src/luciferMain/kotlin/view/Table.kt:24-28 | every cell is exactly `width` characters |
| TableView.CellContents | src/luciferMain/kotlin/view/Table.kt:24-28 | a cell is the item's first `width` characters, or else the whole item followed by spaces |
| TableView.Headings | src/luciferMain/kotlin/view/Table.kt:15 | the headings, one per column, in declaration order |
| TableView.Table.constructor | src/luciferMain/kotlin/view/Table.kt:7 | a new table has no columns |
| TableView.Table.AddColumn | src/luciferMain/kotlin/view/Table.kt:9-12 | `column` appends `Column(heading, width, prePadding)` at the end, with defaults 20 and 5, and returns the same table |
| TableView.Table.PrintRow | src/luciferMain/kotlin/view/Table.kt:18-31 | the loop prints exactly what `Row` says, including where it stops on an error |
| TableView.Table.PrintHeading | src/luciferMain/kotlin/view/Table.kt:14-16 | `printHeading` is `printRow` of the headings |
| TableView.RowCompletes | src/luciferMain/kotlin/view/Table.kt:18-31 | a row completes exactly when every item has a column of non-negative width |
| TableView.RowMissingColumn | src/luciferMain/kotlin/view/Table.kt:19-20 | a row fails for lack of a column exactly at the first item past the last column, when no column before it has a negative width |
| TableView.RowNegativeWidth | src/luciferMain/kotlin/view/Table.kt:24-25 | a row fails on a negative width exactly at the first such column among the items' columns |
| TableView.RowLength | src/luciferMain/kotlin/view/Table.kt:18-31 | a completed row is the sum over the items of `max(prePadding, 0) + width`, plus the newline, which is its last character |
| TableView.RowCellAt | src/luciferMain/kotlin/view/Table.kt:19-28 | item `k` of a completed row sits after the first `k` columns: its column's padding, then its cell |
| TableView.HeadingNeverLacksAColumn | src/luciferMain/kotlin/view/Table.kt:14-16 | the heading row completes exactly when no width is negative, and can fail only on a negative width |

## Left out

- Input and output. This covers:
  - `stdinBuffer` and `main`'s `popen`/`fgets`/`pclose` loop, together with its fragment handling and the `wontexist` workaround;
  - `printErr`, the reports printed at the end of `main` (Main.kt:178-189) and `printReport`;
  - the diagnostic `println`s of `parseLine`.
- The lines reach the model as a list of strings.
- `compare` only prints. `debug` is kept as a field, and the store is modelled without the printout.
- Exceptions are results, not control flow. A failing `toInt` is `FieldParseError`/`Aborted`. A failing `printRow` is a `Printed` with an error, carrying the text printed so far.
- The resolvers' own parsing is not part of this model: `ps`, `id`, `whois` and `ss` output, caching, and `ProcessMetadata`'s floating-point fields. The resolvers are lookup functions. The user name is an `Option<string>`, which generalises Kotlin's non-null `String`.
- The reporters, the curses UI and the spinner.
- Aliasing. The boundary hands out a copy with a fresh file list and then replaces the state's record, so nothing is shared there. `finish` hands out the state's own record. In Kotlin a second `finish` on the same state therefore also changes the record the first call returned. Here records are values, so the first result stays as it was; `LsofProperties.FinishTwiceAddsEmptyFile` states the second call's effect on the state.
- Strings.ParseInt: accepts only ASCII digits, while Kotlin's `toInt` also accepts other Unicode decimal digits.
- Strings.StrLeTotal: compares characters by code point, while Kotlin compares UTF-16 code units. The two orders differ only for characters outside the Basic Multilingual Plane.
- Sorting.SortBy: its contract does not state that the sort is stable, although the definition is a stable insertion sort. No contract here states how ties are ordered. The order shows at the `take(n)` cut-off of `topNCommands` (ProcessesQuerier.kt:30-31): among equally common commands, the stable sort keeps the one whose first occurrence comes first. The model computes this, but no contract states it.
- TableView.Cell: its contract states only the length. The contents are stated by `TableView.CellContents`.
- TableView.Cell, TableView.Row and TableView.Table.PrintRow: they measure and cut an item by characters (code points), while Kotlin's `length` and `substring` count UTF-16 code units. For an item outside the Basic Multilingual Plane the two differ: for width 3, `"😀"` gets two blanks in Kotlin and three here, and for width 1 Kotlin cuts the surrogate pair in half.
- `ProcessesQuerier.kt`'s `records.asSequence()` is laziness only, and is modelled as a plain list.
