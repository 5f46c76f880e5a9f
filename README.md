# occa code printer: a verified model

This project models the diagnostic "code printer" of occa's language front
end (`codeSource_t` and `codePrinter_t`). A printer is built for an error or
for a warning. It is given a primary origin and message, and it collects
annotations. Each annotation is an origin plus a message.

- Every annotation is stamped with an increasing insertion index.
- An annotation on the origin's own line goes into one ordered set.
- Every other annotation goes into an ordered set for its file, in a map keyed by file.
- On `print`, the per-file annotations are cut to a display budget of five.
- The report is then laid out as sections:
  1. the origin file's section (stack text, the origin line's annotations, an optional `^^^` divider, the rest of the origin file);
  2. one section per other file, in key order;
  3. a "Supressed N additional errors" notice.

The model files are:

| file | module | what it holds |
|---|---|---|
| `wrappers.dfy` | `Wrappers` | `Option` and `Result` |
| `origins.dfy` | `Origins` | the slice of `fileOrigin` the printer uses |
| `code_source.dfy` | `CodeSources` | `codeSource_t` and its three-way comparison |
| `source_set.dfy` | `SourceSets` | `codeSourceSet`, an ordered set as a sorted sequence |
| `source_map.dfy` | `SourceMaps` | `fileCodeSourceMap`, ordered (file, set) entries |
| `suppression.dfy` | `Suppression` | the budget walk of `supressSources` |
| `layout.dfy` | `Layout` | gutter width, divider padding, suppression notice |
| `sections.dfy` | `Sections` | `addFileSection`, `addOriginFileSection`, the loop of `addSourceSections` |
| `printer.dfy` | `Printer` | the `CodePrinter` class, `errorCode` / `warningCode`, and lemmas about the whole report |

Modelling choices:

- **Files.** A `file_t*` is modelled by its address, a natural number. 0 is the null pointer. The map is ordered by that number, as `std::map<file_t*, …>` orders by pointer value.
- **Origins.** An origin is (file, line, start offset, stack text).
  - `onSameLine` compares file and line.
  - `distanceTo` is the difference of start offsets.
  - The stack text printed by `origin.up->printStack` is an optional string.
- **Sets and maps.** The source mutates `std::set` and `std::map` in place. The class reassigns `seq` fields instead.
  - The map is a sequence of entries with strictly increasing files. This is the order in which the source iterates over `std::map<file_t*, …>`.
  - A set is a sequence kept strictly increasing under `Less`, i.e. "the three-way comparison is negative". This is the order the code evidently intends, not the order of the program as written. As written, `operator <` converts both -1 and 1 to `true`, so `std::set` is given no strict weak order and its iteration order is not defined (see "## Findings").
- **Text.** A section is a sequence of parts, not text. The renderer of one line's annotations is not part of this model, so each call to it is recorded as a `LineMessages(run, width)` part.
- **Output stream.** It is a value of type `Output`. `print` returns the `Report` it would hand to `printError` / `printWarning`.

## Model

| member | source | states |
|---|---|---|
| CodeSources.Source.WithIndex | src/lang/codes.cpp:23-25 | the copy has the new index and the same origin and message; it equals the original iff the index is unchanged |
| CodeSources.NewSource | src/lang/codes.cpp:10-14 | an annotation built without an index has index -1; its message defaults to the empty string |
| CodeSources.Compare | src/lang/codes.cpp:27-54 | the result is -1, 0 or 1. It is 0 iff file, start and index all agree. It is negative iff (file, start, index) is lexicographically smaller, and positive iff larger |
| CodeSources.CompareAntisymmetric | src/lang/codes.cpp:27-54 | swapping the arguments negates the result |
| CodeSources.LessIsCompareNegative | src/lang/codes.cpp:27-54 | the order the sets keep is exactly "the comparison is negative" |
| CodeSources.LessIsStrictTotalOrder | src/lang/codes.cpp:27-54 | that order is irreflexive, asymmetric and transitive, and total on distinct keys |
| CodeSources.OperatorLessAsWritten | src/lang/codes.cpp:27-54 | with the -1/1/0 result converted to `bool`, `a < b` holds iff the keys differ |
| CodeSources.OperatorLessAsWrittenIsNotAnOrder | src/lang/codes.cpp:27-54 | two annotations in one file at different offsets are each "less" than the other under the as-written operator |
| Origins.Origin.DistanceTo | src/lang/codes.cpp:190-191 | the distance is positive iff the other origin starts later, and zero iff they start together |
| SourceSets.InsertIsSetInsert | include/occa/lang/codes.hpp:16 | insertion keeps the set sorted. It leaves the set unchanged when an equivalent member exists, and otherwise adds exactly the new element |
| SourceSets.InsertMembers | include/occa/lang/codes.hpp:16 | insertion brings in nothing but the old members and the new element |
| SourceSets.SortedKeysDistinct | include/occa/lang/codes.hpp:16 | no two members of a set share a (file, start, index) key |
| SourceSets.PrefixSorted | src/lang/codes.cpp:125-127 | keeping the first members of a set leaves a set |
| SourceMaps.FindIffKey | include/occa/lang/codes.hpp:17 | a lookup succeeds iff the file is a key |
| SourceMaps.PutFind | include/occa/lang/codes.hpp:17 | after storing under a file, that file maps to the new set and every other file to what it had |
| SourceMaps.PutKeepsOrder | include/occa/lang/codes.hpp:17 | storing keeps the entries in increasing file order |
| SourceMaps.PutFiles | include/occa/lang/codes.hpp:17 | the keys after storing are the old keys plus the file |
| SourceMaps.PutSources | include/occa/lang/codes.hpp:17 | storing replaces the annotations under the file and keeps all others, as multisets |
| SourceMaps.PutTotal | include/occa/lang/codes.hpp:17 | storing changes the number of stored annotations by the size difference of the replaced set |
| SourceMaps.TotalCountsSources | include/occa/lang/codes.hpp:17 | the annotation count is the size of the multiset of all stored annotations |
| SourceMaps.PutWellFormed | include/occa/lang/codes.hpp:17 | storing a sorted set of annotations from its own file keeps the map well-formed |
| Suppression.SuppressUnderBudget | src/lang/codes.cpp:107-120 | when the total fits the budget, the map is unchanged and the count is 0 |
| Suppression.SuppressOverBudget | src/lang/codes.cpp:116-130 | over budget: files before the boundary are kept whole, and the boundary file keeps its first `budget - used` members. Later files are dropped, exactly `budget` annotations remain, and the count is the boundary file's excess |
| Suppression.SuppressKeepsMinimum | src/lang/codes.cpp:107-137 | the annotations that remain number min(total, budget) |
| Suppression.SuppressKeepsPrefixes | src/lang/codes.cpp:125-130 | entry by entry, what remains is a prefix of what was there, with the same file |
| Suppression.SuppressKeepsWellFormed | src/lang/codes.cpp:125-130 | the remaining map is still well-formed |
| Suppression.SuppressedCountMissesLaterFiles | src/lang/codes.cpp:122-130 | the number actually removed is the reported count plus every annotation of the files after the boundary |
| Suppression.SupressWalk | src/lang/codes.cpp:107-137 | the loop with its running budget computes the specified remaining map and count |
| Layout.TruncDiv10 | src/lang/codes.cpp:386 | division by ten truncates toward zero: the magnitude is divided, the sign is kept (or the result is 0), and the result is 0 iff the argument lies strictly between -10 and 10 |
| Layout.Decimal | src/lang/codes.cpp:374 | an integer is written as at least one decimal digit, with a leading zero only for 0 |
| Layout.DecimalRoundTrip | src/lang/codes.cpp:374 | reading back the digits gives the number |
| Layout.GetSidebarWidth | src/lang/codes.cpp:384-392 | the loop's width is 2 plus the number of decimal digits of the line |
| Layout.SidebarWidthOneDigit | src/lang/codes.cpp:384-392 | lines 0 to 9 get width 3 |
| Layout.SidebarWidthNextDigit | src/lang/codes.cpp:384-392 | for n ≥ 1, the width of 10n + d is the width of n plus one |
| Layout.SidebarWidthAtLeastThree | src/lang/codes.cpp:384-392 | the width is never below 3 |
| Layout.SidebarWidthMonotone | src/lang/codes.cpp:384-392 | for non-negative lines the width never decreases |
| Layout.DividerText | src/lang/codes.cpp:408-414 | the divider is preceded by exactly `sidebarWidth - size/2` spaces |
| Layout.CaretDividerCentred | src/lang/codes.cpp:408-414 | "^^^" gets `sidebarWidth - 1` spaces, so its middle caret sits at column `sidebarWidth` |
| Layout.SupressedMessage | src/lang/codes.cpp:368-382 | the notice is empty iff the count is at most 0 |
| Layout.SupressedMessageStatesCount | src/lang/codes.cpp:368-382 | for a positive count the notice reads "Supressed ", then the count's digits (which read back as the count), then " additional ", then the noun. The noun is plural iff the count exceeds 1 and depends on error vs warning |
| Sections.LineRunsPartition | src/lang/codes.cpp:263-279 | the walk cuts a set into runs that concatenate back to it. Runs after the first are non-empty and on one line each, and adjacent runs differ in line. The first run is empty iff the first line is not -1 |
| Sections.RunPartsLists | src/lang/codes.cpp:263-279 | part k of the rendered runs shows run k, at the section's one gutter width |
| Sections.AddLineRuns | src/lang/codes.cpp:263-279 | the loop with `currentOrigin` and `lineStartIt` emits one part per run of that partition, in order |
| Sections.AddFileSection | src/lang/codes.cpp:242-280 | appends nothing for an empty set. Otherwise it appends the file name when asked, then the runs, at the given width, or when the width is negative at the width of the greatest member's line |
| Sections.PushFileSection | src/lang/codes.cpp:282-290 | the section built on its own is pushed as one entry, with the same defaults |
| Sections.FileSectionOfEmptySet | src/lang/codes.cpp:247-249 | an empty set gives no parts |
| Sections.FileSectionLists | src/lang/codes.cpp:251-279 | a non-empty set gives the optional file name, then one line part per run at the effective width; the runs read back as the set |
| Sections.FileSectionHasNoDivider | src/lang/codes.cpp:242-280 | a file section never holds a divider |
| Sections.MaxLineIsMaximum | src/lang/codes.cpp:180-189 | the scanned maximum is at least the origin's line and every annotation's line, and it is one of them |
| Sections.ScanOriginFile | src/lang/codes.cpp:179-194 | the loop yields that maximum, and "origin is first" iff no annotation is off the origin's line and after it |
| Sections.OriginSection | src/lang/codes.cpp:196-239 | the origin section is, in order: the stack text, the origin line's annotations (with file name), the divider when needed, then the other annotations of the origin file (without file name) |
| Sections.DividerIffLaterSource | src/lang/codes.cpp:190-225 | the divider appears iff both groups are non-empty and some origin-file annotation is off the origin's line with a positive distance |
| Sections.OriginSectionWidth | src/lang/codes.cpp:202-235 | every line part of the origin section uses the width of the largest line, the origin's own line included |
| Sections.OtherFileSectionsMatchBuckets | src/lang/codes.cpp:163-173 | the loop's sections match the visited entries one for one: the k-th section is the file section of the k-th visited entry, with the file name and the computed width |
| Sections.OtherBucketsAreTheOtherFiles | src/lang/codes.cpp:163-173 | the visited entries are exactly the entries whose file is not the origin's. They stay in key order, and exactly one entry is skipped when the origin's file is a key |
| Sections.OtherFileSectionsInKeyOrder | src/lang/codes.cpp:163-173 | each section belongs to its entry: it is empty iff the entry is, and otherwise starts with that entry's file name; the files increase |
| Sections.OtherBucketsIgnorePut | src/lang/codes.cpp:168-177 | the empty entry `sources[origin.file]` may create is never visited |
| Sections.AddOtherFileSections | src/lang/codes.cpp:163-173 | the loop pushes exactly those sections, in order |
| Printer.InsertFresh | src/lang/codes.cpp:96-98 | an annotation with a fresh index always enters the set, which grows by exactly that annotation |
| Printer.AddFreshSource | src/lang/codes.cpp:100-102 | inserting a freshly stamped annotation into its file's entry keeps the map well-formed. That entry grows by exactly the annotation, every other entry is unchanged, and the total grows by one |
| Printer.TouchKeeps | src/lang/codes.cpp:177 | looking up the origin's file may add an empty entry but changes no set, no total and nothing the other-files loop visits |
| Printer.NoticeIffOverBudget | src/lang/codes.cpp:144-150 | the report ends with the notice, which is empty iff the annotations outside the origin line fit the budget |
| Printer.PrintedSectionsLayout | src/lang/codes.cpp:139-174 | the report is the origin section, then one section per remaining file other than the origin's in key order, then the notice. At most five annotations remain, all from files that had some |
| Printer.SevenAnnotationsInOneOtherFile | src/lang/codes.cpp:107-157 | seven annotations in one other file: the first five are shown and the notice reads "Supressed 2 additional errors" |
| Printer.LaterFilesAreNotCounted | src/lang/codes.cpp:116-130 | with 4, 3 and 10 annotations in three files, twelve are removed but the notice reports two |
| Printer.CodePrinter.constructor | src/lang/codes.cpp:56-62 | a new printer has no origin, no message, no annotations and index 0 |
| Printer.CodePrinter.WithMessage | src/lang/codes.cpp:79-84 | sets origin and message, keeps the annotations, returns the printer |
| Printer.CodePrinter.WithSource | src/lang/codes.cpp:91-105 | stamps the annotation with the current index and increments it. The annotation goes to the origin line's set iff it has the origin's file and line, and otherwise to its file's entry. That set grows by exactly the stamped annotation, and everything else is unchanged |
| Printer.CodePrinter.WithSourceAt | src/lang/codes.cpp:86-89 | builds the annotation from an origin and a message (empty by default) and adds it as above |
| Printer.CodePrinter.SupressSources | src/lang/codes.cpp:107-137 | the map becomes the suppressed map and the specified count is returned; the origin line's set is untouched |
| Printer.CodePrinter.AddOriginFileSection | src/lang/codes.cpp:176-240 | pushes the origin section for the origin file's set, after creating its entry if missing |
| Printer.CodePrinter.AddSourceSections | src/lang/codes.cpp:159-174 | pushes the origin section, then the other files' sections in key order |
| Printer.CodePrinter.Print | src/lang/codes.cpp:139-157 | fails with "Error/Warning code is missing its origin" when the origin has no file, changing nothing. Otherwise it suppresses and reports the specified sections to the printer's stream |
| Printer.ErrorCode | src/lang/codes.cpp:416-419 | a fresh printer for an error on the given stream, with no origin, an empty message, no annotations and index 0 |
| Printer.WarningCode | src/lang/codes.cpp:421-424 | a fresh printer for a warning on the given stream, with no origin, an empty message, no annotations and index 0 |
| Printer.ErrorCodeToStderr | include/occa/lang/codes.hpp:109-111 | the error printer defaults to standard error and starts empty, at index 0 |
| Printer.WarningCodeToStderr | include/occa/lang/codes.hpp:116-118 | the warning printer defaults to standard error and starts empty, at index 0 |

## Left out

- `addSourceLineMessages` and `addDisjointSourceLineMessages`: they do not compile as written. For example, `push_back` is called on a `std::set`, `+it` stands for `++it`, `startIt` / `endIt` / `uderlineLine` are undeclared, and `lines` is never filled. So they state no behaviour beyond the empty-input return. Each call is recorded as a `LineMessages` part.
- `addFilenameLine`: recorded as a `FileName(file)` part. The file's name lives in `file_t`, which is not part of this model.
- `addOriginStackSection`: it builds a stream and never pushes it, so it has no effect.
- `operator=`: object-copy mechanics only.
- Colour (`green`, `blue`, `yellow`), `io::output`, `printError` / `printWarning` and `printStack`: these are external. The stream is a value, the stack text an optional string, and the report a value.
- `OCCA_ERROR`: modelled as a `Failure` result, not as an exception.
- Printer.CodePrinter.SupressSources: in place, the source erases the later entries and then keeps comparing the iterator it had already advanced, which the erase invalidated. The model stops the walk after the boundary file, which is what the code evidently means. The `else` branch that adds to the count can never be taken and has no counterpart.
- Printer.CodePrinter.SupressSources: the count is the boundary file's excess alone, because the code assigns it rather than adding to it. A description of the printer as returning the total number dropped disagrees with the code. The model follows the code, and `Suppression.SuppressedCountMissesLaterFiles` and `Printer.LaterFilesAreNotCounted` state the difference.
- Layout.DividerText: requires the padding `sidebarWidth - |divider| / 2` to be non-negative. In the source a negative padding would make `std::string(padding, ' ')` throw, and that case is not modelled. The only caller passes "^^^" with a width of at least 3, which always meets the requirement.
- Layout.SupressedMessage: the spelling "Supressed" is the code's own.
- Printer.CodePrinter.WithSource: `int` overflow of `sourceIndex` is not modelled. Indices are unbounded, so stamps are always fresh.
- Sections.AddLineRuns: iterators into the set become indices into the sorted sequence.

## Findings

| source | as written | input that shows it | evidently intended | confidence | as-written member | corrected member |
|---|---|---|---|---|---|---|
| src/lang/codes.cpp:27-54 | `operator <` returns `bool`, but its body returns -1, 1 or 0, so both -1 and 1 convert to `true` | two annotations in one file at start offsets 1 and 2: each is "less" than the other, so `std::set` has no strict weak order | `a < b` iff the three-way comparison is negative | not executed | CodeSources.OperatorLessAsWrittenIsNotAnOrder | CodeSources.LessIsStrictTotalOrder |
