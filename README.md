# psmaps in Dafny

`psmaps` reports how much memory each Linux process uses, as USS, PSS and RSS.

- **USS** (unique set size) is the sum of the `Private_Clean` and `Private_Dirty` stats.
- **PSS** (proportional set size) and **RSS** (resident set size) are read directly.

For every process it does the following:

- reads the kernel's `/proc/<pid>/smaps_rollup` summary;
- reads the owner of `/proc/<pid>` and turns its uid into a user name through a cache;
- reads the command line from `/proc/<pid>/cmdline`.

It then gathers the per-process results, sorts the rows on a chosen key and prints a table. The command column is cut to fit the terminal.

This project models that pipeline and proves properties of it. The model is split into these modules:

- `Common`, `Strings`, `Numbers`: the parts of Go's `strings`, `bytes` and `strconv` that the program relies on. This covers:
  - `Split`, `Trim`, `TrimSpace` and ASCII `ToLower`;
  - `Atoi`, `ParseUint` in base 16 and decimal rendering;
  - the UTF-8 byte length behind `len`.
- `Delivery`: the order in which a `reflect.Select` loop receives from its channels. The order is a schedule: a sequence that names every channel exactly once. `Reorder` shows that receiving by a schedule is a permutation of the results.
- `Smaps` (smaps.go): parsing the header line, the stat lines and the whole rollup, the reader and parser steps, and both reducers.
- `CmdLines` (cmdline.go): trimming NULs and turning the remaining NULs into spaces, the reader, and the reducer.
- `PidOwners` (pidowners.go): the uid-to-name cache as a class whose map the lookup updates, the owner record, and both reducers.
- `Sorting` (sort.go): the comparator table, the comparator (negated for reverse order) and an in-place sort of the rollup array.
- `Output` (output.go): cell texts, the column-width computation, the command-width clamp and the table rows.
- `Arguments` (main.go): sort-key validation, the exit code, the default key, and choosing pids from the arguments or from `/proc`.

Conventions of the model:

- **Strings.** A Go string is a sequence of runes. Where Go counts bytes (`len`), the model uses `Utf8Len`.
- **Errors.** A returned `error` becomes a `failed` flag or an `Err` outcome. `log.Fatal` and index panics end the run; they become an `Aborted` outcome that carries the reason.
- **Channels.** Each goroutine's channel is modelled by the value it delivers. The iterative reducers fold over those values in map-iteration order, which is arbitrary, so the lemmas range over every order. The select reducers take the per-channel results plus a schedule.
- **Duplicate pids.** The dispatchers key their channel maps by pid, so the reducers receive one value per distinct pid. The order-independence lemmas assume exactly that.
- **I/O.** The kernel files, the `stat` result, the account database (`user.LookupId`), the terminal width and the names in `/proc` are parameters of the model.

The model follows the code precisely at these points, where a reader might expect otherwise:

- A malformed stat line (no `:`, or a value that `strconv.Atoi` rejects) ends the run (smaps.go:120-127, `Smaps.StatLineName`, `Smaps.StatLineMalformedValue`). It is not skipped. Only the empty line is skipped (smaps.go:71-74).
- The stat value is the text between the first and the second `:` (smaps.go:122). It is not "everything after the first colon".
- There is no fallback comparator for other stat names. A key outside the table leaves the comparator nil (sort.go:22-35), and the nil function panics once `slices.SortFunc` compares two rollups, that is, when two or more rollups are sorted. `SortRollups` requires a key that has a comparator. `Arguments.CheckedKeySorts` proves that the key validation in main.go admits exactly those keys.
- Comparisons use `cmp.Compare`, which returns -1, 0 or 1 (sort.go:13). It is not a signed difference.

## Model

| member | source | states |
|---|---|---|
| `Common.ReadOr` | output.go:144 | A Go map read gives the stored value for a present key and the zero value for a missing one. |
| `Numbers.Atoi` | main.go:135 | A parsed integer lies in the 64-bit range and its text starts with a sign or a digit. |
| `Numbers.AtoiItoa` | output.go:21 | Every 64-bit integer reads back from its decimal rendering. |
| `Numbers.AtoiExamples` | main.go:135 | A sign and leading zeros are accepted. The empty text, a lone sign, trailing letters and `_` separators are rejected. |
| `Numbers.ParseUint` | smaps.go:104 | A base-16 parse succeeds only on non-empty digit text, and only below 2^64. |
| `Numbers.ParseUintDigits` | smaps.go:104-108 | Every value below 2^64 reads back from its base-16 digits. |
| `Numbers.Itoa` | output.go:80 | The uid text is non-empty and has only `-` and decimal digits. |
| `Strings.SplitPieces` | smaps.go:100-101 | No piece of a split holds the separator. The first piece is the text before the first separator. There are two or more pieces exactly when the separator occurs. |
| `Strings.SplitJoin` | smaps.go:64 | Joining the pieces of a split with the separator gives back the text. |
| `Strings.TrimIsSlice` | cmdline.go:22 | The trimmed text is a contiguous slice of the input. Everything before and after that slice is trimmable. |
| `Strings.TrimSpace` | smaps.go:123 | The result does not start or end with white space. |
| `Strings.LowerAt` | smaps.go:77 | Lower-casing works rune by rune, and no upper-case letter remains. |
| `Strings.LowerIdempotent` | sort.go:20 | Lower-casing twice is lower-casing once. |
| `Strings.Utf8Len` | output.go:73 | The byte length is at least the rune count. It equals the rune count for ASCII text. |
| `Delivery.ReorderPermutes` | smaps.go:184-204 | Receiving by a schedule delivers every channel's value exactly once: the result is a permutation of the values. |
| `Delivery.Disable` | smaps.go:189-198 | The received channel's case was open, and after it is disabled the open cases are exactly the channels not yet received from. |
| `Smaps.Stat` | output.go:87-99 | A stat reads as its value in the map, or as 0 when the map has no such key. |
| `Smaps.USS` | output.go:87 | USS is `private_clean` plus `private_dirty`, a missing one counting 0, and 0 when both are missing. |
| `Smaps.PSS` | output.go:93 | PSS is the `pss` stat, or 0 when there is none. |
| `Smaps.RSS` | output.go:99 | RSS is the `rss` stat, or 0 when there is none. |
| `Smaps.ParseHeaderLine` | smaps.go:98-113 | The header parser never returns an error: it gives a header or ends the run. An accepted start and end are below 2^64. |
| `Smaps.HeaderLineNeedsRange` | smaps.go:100-108 | A first token without `-` ends the run (index panic). An accepted header's first token holds `-`. |
| `Smaps.HeaderLineRoundTrip` | smaps.go:98-113 | `<a>-<b>` followed by nothing or by a space parses to the base-16 values of `a` and `b`. |
| `Smaps.HeaderLineMalformedHex` | smaps.go:100-111 | `<a>-<b>` followed by nothing or by a space, where `a` or `b` is not a 64-bit hexadecimal number, ends the run. |
| `Smaps.ParseStatLine` | smaps.go:115-130 | A stat line gives an error exactly when it is empty. A non-empty line without `:` ends the run. A parsed stat is named by the first `:`-piece, and its value, which fits in 64 bits, is what `Atoi` reads from the first space-separated word of the trimmed second piece. When `Atoi` rejects that word, the run ends. |
| `Smaps.StatLineName` | smaps.go:120-121 | A non-empty line without `:` ends the run. A parsed name is the text before the first `:`. |
| `Smaps.StatLineRoundTrip` | smaps.go:115-130 | `Name:`, any run of spaces, the value in decimal and ` kB`, with no `:` in the name, parses back to that name, unchanged, and that value. |
| `Smaps.StatLineMalformedValue` | smaps.go:119-127 | `Name:`, any run of spaces, then a word without spaces or `:` that `Atoi` rejects, then nothing or a space-led tail without `:`, ends the run. |
| `Smaps.FoldStats` | smaps.go:67-82 | Folding the stat lines never returns an error: it gives a map or ends the run. A finished fold keeps every key it started with. |
| `Smaps.RollupOf` | smaps.go:63-85 | Parsing the rollup never returns an error. A rollup carries the given pid and the header parsed from the first line. A header line that ends the run ends the rollup. |
| `Smaps.ParseSmapsRollup` | smaps.go:63-85 | The loop gives the rollup of the text: the header from the first line and stats folded from the others. It aborts where a line aborts. |
| `Smaps.FoldStatsKeysLower` | smaps.go:77 | Folding stat lines into a lower-case map keeps every key lower-case. |
| `Smaps.RollupKeysLower` | smaps.go:77 | Every stat name in a parsed rollup is lower-case. |
| `Smaps.FoldStatsLastWins` | smaps.go:67-82 | A key's value is the one from the last line that gives it. A key no line gives keeps its earlier value or stays absent. |
| `Smaps.RollupLastWins` | smaps.go:63-85 | A stat of the rollup has the value of its last line after the header, and a name no line gives is absent. |
| `Smaps.EmptyLineIgnored` | smaps.go:71-74 | An empty line anywhere among the stat lines changes nothing. |
| `Smaps.FoldStatsAborts` | smaps.go:70-81 | Folding never returns an error. It aborts exactly when some line aborts. |
| `Smaps.MalformedStatLineAborts` | smaps.go:75-81 | A malformed stat line after the header ends the run. |
| `Smaps.StatsAfterHeader` | smaps.go:64-69 | A valid header line followed by text gives the header and the stats folded from that text. |
| `Smaps.RollupRoundTrip` | smaps.go:63-85 | A header line followed by `Name:   value kB` lines (names of any case without `:` or newline, any padding) parses back to the map those lines denote, keyed by lower-cased name, a repeated key keeping its last value. |
| `Smaps.StatsMapExact` | smaps.go:77 | With distinct lower-cased names, each entry's lower-cased name maps to exactly its value. |
| `Smaps.ReadSmapsRollup` | smaps.go:35-56 | Reading succeeds exactly when the file is readable and not empty, and then returns its text unchanged. |
| `Smaps.SmapsRollupReader` | smaps.go:58-61 | The reader's message carries the pid and is marked failed exactly when reading failed. |
| `Smaps.SmapsRollupParser` | smaps.go:87-96 | A failed or empty read gives a rollup with no stats and a zero header. Otherwise the parser gives the parsed rollup for the message's pid. |
| `Smaps.UnreadableRollupDropped` | smaps.go:91-93 | An unreadable or empty file gives a stat-less rollup, which the reducers drop. |
| `Smaps.KeepNonEmpty` | smaps.go:154-156 | Every kept rollup has stats and comes from the input. Nothing is added. |
| `Smaps.KeepNonEmptyCount` | smaps.go:152-159 | A rollup with stats is kept as often as it occurs. One without stats is never kept. |
| `Smaps.KeepNonEmptyPermutation` | smaps.go:152-159 | Inputs that are permutations of each other keep permutations of each other. |
| `Smaps.ReduceSmemRollupParsers` | smaps.go:150-161 | The iterative reducer keeps, in delivery order, the rollups that have stats. |
| `Smaps.ReduceSmemRollupParsersSelect` | smaps.go:166-206 | The select reducer keeps, in the order received, the rollups that have stats. The result is a permutation of those kept from all channels and no longer than the number of channels. |
| `Smaps.SelectKeepsAll` | smaps.go:184-204 | Whatever the order of receipt, the select reducer keeps the same rollups, counted with multiplicity. |
| `Smaps.ReducersAgree` | smaps.go:150-206 | The two reducers keep the same rollups, whatever the map-iteration order and the select order. |
| `CmdLines.ReadCmdLine` | cmdline.go:18-33 | An unreadable file gives an error. A readable file gives an error exactly when it holds only NULs (or nothing). A result is non-empty and has no NUL. |
| `CmdLines.ReplaceNulAt` | cmdline.go:23-24 | The replacer turns each NUL into a space and leaves every other rune. |
| `CmdLines.ReplaceNulNone` | cmdline.go:23-24 | No NUL remains after the replacement. |
| `CmdLines.ReadCmdLineChars` | cmdline.go:22-24 | Rune by rune, the result is the file with the NULs at both ends dropped and the inner NULs shown as spaces. |
| `CmdLines.ReadCmdLineStable` | cmdline.go:18-33 | A command line, read as a file, gives itself back. |
| `CmdLines.ReadCmdLineArgv` | cmdline.go:20-29 | Arguments without NUL, with the first and last non-empty, each ended by a NUL as the kernel writes them, read back as the arguments joined by spaces. |
| `CmdLines.CmdLineReader` | cmdline.go:35-38 | The message carries the pid and the text. It is marked failed exactly when reading failed, and a failed message has an empty line. |
| `CmdLines.CmdLinesOf` | cmdline.go:40-51 | The map has no more entries than messages, and the last message, when error-free, has its line stored under its pid. |
| `CmdLines.ReduceCmdLines` | cmdline.go:40-51 | The loop builds the map of the delivered messages, in delivery order. |
| `CmdLines.CmdLinesContents` | cmdline.go:44-46 | A pid has a command line exactly when an error-free message for it was delivered, and the line is that message's. |
| `CmdLines.CmdLinesOrderFree` | cmdline.go:42-49 | With one message per pid, the map does not depend on the delivery order. |
| `PidOwners.UidCache.constructor` | pidowners.go:20-23 | The cache starts empty. |
| `PidOwners.UserName` | pidowners.go:32-39 | The name is the one the account database gives for the uid in decimal, or the empty name when it gives none. |
| `PidOwners.UidCache.UserFromUid` | pidowners.go:25-40 | A cached uid returns its name with no lookup. On a miss the database is consulted once. A name it gives is cached and returned. A miss returns the empty name and caches nothing. A cache that agreed with the database still agrees, and the name is the database's. |
| `PidOwners.PidOwnerOf` | pidowners.go:42-55 | A failed `stat` gives uid -1, no name and the failure flag, and changes neither the cache nor the lookup log. Otherwise the record has the file's uid and its name comes from the cache: a cached uid gives the cached name with no lookup and no change; an uncached uid is looked up once, gets the database's name (or the empty name), and is cached exactly when the database knows it. A cache that agreed with the database still agrees. |
| `PidOwners.OwnersOf` | pidowners.go:71-82 | The map has no more entries than messages, every entry is an error-free record stored under its own pid, and the last message, when error-free, is stored under its pid. |
| `PidOwners.ReducePidOwners` | pidowners.go:71-82 | The iterative reducer stores each error-free record under its pid, in delivery order. |
| `PidOwners.ReducePidOwnersSelect` | pidowners.go:87-124 | The select reducer stores each error-free record under its pid, in the order received. |
| `PidOwners.OwnersContents` | pidowners.go:75-77 | A pid has an owner exactly when an error-free record for it was delivered, and the owner is such a record. |
| `PidOwners.OwnersOrderFree` | pidowners.go:73-80 | With one record per pid, the map does not depend on the delivery order. |
| `PidOwners.OwnerReducersAgree` | pidowners.go:71-124 | The iterative and the select reducer build the same map, whatever the iteration and select orders. |
| `Sorting.SortKeyOf` | sort.go:20-35 | The table has a comparator exactly for the six names `pid`, `uss`, `pss`, `rss`, `user` and `command`, after lower-casing. |
| `Sorting.CompareInt` | sort.go:11-15 | Integer comparison is -1, 0 or 1, negative exactly when less and zero exactly when equal. |
| `Sorting.CompareStrings` | sort.go:11-15 | String comparison is -1, 0 or 1, following lexicographic order, and zero exactly on equal strings. |
| `Sorting.StringLessIrreflexive` | sort.go:13 | No string is lexicographically before itself. |
| `Sorting.StringLessTotal` | sort.go:13 | Of two distinct strings exactly one comes first. |
| `Sorting.StringLessTransitive` | sort.go:13 | Lexicographic order is transitive. |
| `Sorting.SortKeyTable` | sort.go:20-33 | A key whose lower-case form is `pid`, `uss`, `pss`, `rss`, `user` or `command` selects that name's comparator. |
| `Sorting.KeyCompareGetters` | sort.go:22-33 | Each key compares its own getter: the sum of the two private stats, the `pss` stat, the `rss` stat (a missing stat counting 0), the owner's user name, or the command line (a pid without an entry reading as the empty text). |
| `Sorting.KeyCompare` | sort.go:11-33 | The getter comparison is -1, 0 or 1, and 0 on equal rollups. By `pid` it follows the pids. Pids missing from the owner or command-line map compare equal on `user` or `command`, as empty texts. |
| `Sorting.KeyCompareSwap` | sort.go:11-15 | Swapping the arguments negates the getter comparison. |
| `Sorting.RollupCompare` | sort.go:37-43 | The comparator is -1, 0 or 1. It is the getter comparison, and in reverse order the getter comparison with the arguments swapped. |
| `Sorting.CompareAntisymmetric` | sort.go:37-43 | The comparator, reversed or not, gives -1, 0 or 1, and swapping the arguments negates it. |
| `Sorting.CompareTransitive` | sort.go:22-43 | The comparator, reversed or not, is transitive. |
| `Sorting.SortFunc` | sort.go:37-43 | The sort permutes the slice so that neighbouring elements are in comparator order. |
| `Sorting.SortRollups` | sort.go:19-46 | Sorting on a known key permutes the rollups into the order of that key's comparator, negated when reversed. |
| `Sorting.SortedAll` | sort.go:37-43 | In a sorted slice every earlier element compares at most equal to every later one. |
| `Sorting.SortedReverse` | sort.go:39-41 | A reverse-sorted slice is in descending order of the key. |
| `Sorting.SortKeyCaseFree` | sort.go:20 | The comparator chosen does not depend on the case of the key. |
| `Sorting.PidOrder` | sort.go:23 | On the `pid` key, a rollup comes first exactly when its pid is smaller, or larger when reversed. |
| `Sorting.PidsSorted` | sort.go:19-46 | Pids 5, 1, 3 sort to 1, 3, 5, and to 5, 3, 1 in reverse. |
| `Sorting.UssOrder` | sort.go:24 | On the `uss` key, 10 private clean plus 5 private dirty kB comes after none. |
| `Output.KiloBytesToString` | output.go:17-22 | The size text is non-empty ASCII and reads back as the value. |
| `Output.UserCell` | output.go:78-81 | The user cell is never empty: the owner's name, or the uid in decimal when the name is empty, and "0" for a pid without an owner (the map's zero record). |
| `Output.RowWidths` | output.go:73-103 | Every cell of a row is at least one byte wide. The pid and size cells, being ASCII, are as many bytes as runes. The user cell has at least a byte per rune. |
| `Output.MaxWidths` | output.go:74-103 | The combined widths are at least both inputs in every column. |
| `Output.CellWidths` | output.go:72-104 | There is one width record per rollup, in order, each being that rollup's cell widths. |
| `Output.Widest` | output.go:64-104 | The running maxima are at least the header widths and at least every row's cell widths. |
| `Output.WidthsOf` | output.go:64-104 | The column widths cover the headers and every rollup's cells, and are the header widths when there are no rollups. |
| `Output.Total` | output.go:106 | The width of the other columns is at least the spacing, at least 27 when every column is as wide as its header, and exactly 27 for the header widths. |
| `Output.Widen` | output.go:73-103 | One row widens each column to the larger of its width and the row's cell. |
| `Output.OtherColumnsWidth` | output.go:64-107 | The width is the spacing plus the running maximum of each column over the rows, starting from the header widths. It is at least 27, and exactly 27 with no rows. |
| `Output.WidestFits` | output.go:72-104 | Each column is no wider than needed: its width is the header's or some row's cell's. |
| `Output.LayoutOf` | output.go:111-115 | The command width is what the terminal leaves, and at least 7. Below 7 it becomes 7 and commands are shown whole. |
| `Output.CommandCell` | output.go:144-147 | The command cell is a prefix of the command line. It is cut to exactly the command width when the line is longer and commands are not shown whole, and is the whole line otherwise. |
| `Output.RowOf` | output.go:135-147 | A row shows the rollup's pid and user cell, and a command that is a prefix of the pid's command line and, when commands are not shown whole, no longer than the command width. |
| `Output.Render` | output.go:110-152 | The layout comes from the terminal width and the other columns. There is one row per rollup, in order. |
| `Output.RowsOf` | output.go:135-149 | There is one row per rollup, in order, each being that rollup's row. |
| `Output.RenderRows` | output.go:135-149 | The loop builds one row per rollup, in order. |
| `Output.RowShows` | output.go:135-148 | A row shows the pid, the user fallback, the USS sum and the PSS and RSS stats in decimal (a missing stat counts 0), and a command that is a prefix of the line within the width. |
| `Output.EmptyRollupShowsZero` | output.go:137-139 | A rollup without stats shows 0 in the three size columns. |
| `Arguments.CheckSortKey` | main.go:117-128 | A key passes exactly when its lower-case form is one of the six names. Otherwise the program exits with code 1. |
| `Arguments.CheckedKeySorts` | main.go:117-128 | A key passes validation exactly when the sorter has a comparator for it. |
| `Arguments.DefaultSortKeyAllowed` | main.go:102-103 | The default key `pid` passes validation. |
| `Arguments.PositivePids` | main.go:133-139 | No more pids than arguments are chosen, and each is positive and fits in 64 bits. |
| `Arguments.ProcessIds` | main.go:56-61 | No more pids than names in `/proc` are chosen, and each fits in 64 bits. |
| `Arguments.KeepPositive` | main.go:135-137 | The positive filter keeps at most its input, and only positive values of it. |
| `Arguments.KeepPositiveContents` | main.go:135-137 | A value is kept exactly when it is in the input and positive. |
| `Arguments.PidsFromArgs` | main.go:133-139 | The loop keeps, in order, the arguments that parse as integers and are positive. |
| `Arguments.AllProcesses` | main.go:51-63 | The processes are, in listing order, the names in `/proc` that parse as integers. |
| `Arguments.SelectPids` | main.go:131-142 | With arguments the pids come from them. Without any they are all processes. |
| `Arguments.PositivePidsContents` | main.go:134-139 | A pid is chosen exactly when it is positive and some argument parses to it. |
| `Arguments.ProcessIdsContents` | main.go:57-61 | A name in `/proc` gives a pid exactly when it parses, whatever its sign. |
| `Arguments.PositivePidsAppend` | main.go:134-139 | Selection keeps argument order: it distributes over concatenation. |
| `Arguments.PositivePidsFromIds` | main.go:135-137 | Selection is the `/proc` name filter followed by keeping the positive values. |

## Left out

- Output.KiloBytesToString: the human-readable branch (`humanize.IBytes` of the size times 1024) is not modelled. Only the decimal rendering is, so `OtherColumnsWidth` and `Render` have no human-readable flag.
- Output.Render: the table drawing (alignments, suppressed trailing spaces, no borders) is not modelled. The model stops at the rows and the command width.
- Output.RowShows, Smaps.USS, Sorting.KeyCompare, Output.OtherColumnsWidth: Go's `int` wrap-around on a USS sum beyond 64 bits is not modelled. `USS` adds without bounds, so the `uss` sort key (sort.go:24) and the USS column width (output.go:87-91) use the exact sum. `RowShows` requires the three sizes to fit in 64 bits.
- `terminalWidth`: probing stdout, stderr, stdin, `/dev/tty` and `$COLUMNS` is I/O. The width is a parameter of `Render`.
- Sorting.SortFunc: an insertion sort stands in for `slices.SortFunc` (pattern-defeating quicksort). The contract is the same: a permutation in comparator order. The order the library gives to equal elements, which is not stable either, is not modelled.
- Sorting.SortRollups: it requires a key that has a comparator. With any other key the source calls a nil function and panics once two or more rollups are compared. With zero or one rollup `slices.SortFunc` never calls the comparator and the program goes on. The requires excludes that harmless case too. main.go rules out every unknown key by validating it first (`Arguments.CheckedKeySorts`).
- Output.CommandCell, CmdLines.ReadCmdLine: a command line is a sequence of runes, so bytes of `/proc/<pid>/cmdline` that are not valid UTF-8 cannot be represented. Go counts each such byte as one rune (output.go:145) and turns it into U+FFFD when it cuts the command (output.go:146), so the cut cell is then not a byte prefix of the command line and its byte length changes. The model does not capture that case.
- Strings.Lower: lower-cases ASCII letters only. The full Unicode case mapping of `strings.ToLower` is not modelled.
- PidOwners.PidOwnerOf: the case where `Sys()` is not a `*syscall.Stat_t` is not modelled. On Linux it always is, and the source would then send nothing.
- PidOwners.UidCache.UserFromUid: the `sync.RWMutex` around the cache and concurrent callers are not modelled. The cache is used by one caller at a time.
- Goroutines, buffered channels, `close` and `reflect.Select` are not modelled. Each channel becomes the value it delivers, and each receive order becomes a sequence or a schedule. The `!ok` branch for a closed channel in both select reducers is never taken, because a received channel's case is disabled at once. The model keeps that disabling in an `open` array.
- The `dispatch*` functions are not modelled. Their only logic is one channel per distinct pid, which the order-independence lemmas take as a precondition.
- `readSmapsRollup` prints an error for unexpected read failures. That printing is I/O and is not modelled. Only "no text" is.
- `allProcesses` ends the run when `/proc` cannot be listed. That `log.Fatal` and the listing itself are I/O. The names are a parameter.
- `printUsage`, `--help` and the `flag` package's parsing of options are library behaviour and are not modelled. The sort key, the flags and the remaining arguments are parameters.
- psmaps.go is an earlier version of main.go and output.go that redeclares the same functions. It is not part of this model.
- The file that defines `SmemRollup.PID`, `USS`, `PSS` and `RSS` is not part of this model. They are modelled as output.go computes the same columns (output.go:87-99): USS is `private_clean` plus `private_dirty`, and a missing stat reads as 0. `PID` is the rollup's `pid` field.
