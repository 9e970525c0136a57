# MorphStore query-translation tools, modelled in Dafny

This project models the Python tools that MorphStore's benchmarks use to turn
MonetDB query plans into MorphStore C++ query programs, and the small
data-preparation helpers around them.

- **The MAL translator** (`Translation`, `Translator`). It reads a MonetDB MAL
  program line by line with a six-step machine. Each assignment
  `res := mod.fun(params);` is dispatched on its module and function, and may
  append operator nodes to the program. It keeps three things:
  - a name map of aliases and `(table, column)` base columns;
  - the list of full-OID BATs;
  - the list of sort results.

  Dedicated rules cover:
  - collapsing a projection path;
  - splitting a range select into two selects and intersections;
  - the comparison selects.

  After the last line, the plan analysis runs and each generic join becomes an
  N:1 join built on its unique input. `Translation` states every step as a
  function on a value of the translation state. `Translator.TranslationState`
  is the object those steps update in place, and each of its methods is proved
  to compute the function of the same name.
- **The node catalogs** (`Operators`, `OperatorFacts`, `LegacyOperators`).
  - The mal2x catalog has column slots, parallel format slots and its C++
    renderings.
  - The older, format-less catalog has per-node header lists and its own
    renderings.
- **The plan analyses** (`Usage`, `Analysis`, `LegacyAnalysis`). The newer
  analysis tracks assigned, never-used and used-before-assigned names, and
  propagates uniqueness with hard errors. The older one tracks usage only.
- **Compression and morphs** (`ComprNames`, `ComprConfigs`, `ComprDynamic`,
  `ComprCheck`, `ComprPipeline`, `Morphs`, `Compr`).
  - The four compression configurations.
  - The check that every format slot is set.
  - The rewrite that inserts deduplicated Morph nodes.

  Each step is a function from the program before to the program after, or to
  the exception it raises. `Compr.Query` is the translation result that those
  steps update in place.
- **The format catalogue** (`Formats`, `ProcessingStyles`). It holds the
  format values, their names, equality and mode or bit-width changes, the
  catalogue for each processing style, and lookup by name.
- **The greedy search's candidate rules** (`Greedy`): the bit-width and format
  choices, alternative simple names, and the size of the search space.
- **Dictionary coding** (`DBDict`, `SortedStrings`): order-preserving coding of
  a table file.
- **Query dictionary rewriting** (`QDict`): code lookups and the three literal
  rewrites.
- **The monitoring CSV conversion** (`Csv2Json`, with the class
  `Csv2Json.RowReader` for the reader).
- **Plan-graph column classification** (`Columns`, `Visualize`).
- **Supporting modules.**
  - `Strings` models the string helpers.
  - `Regex` models the fragment of Python's `re` the translator relies on.
  - `MalPatterns` holds the translator's regular expressions as recognisers
    that return the captured groups.
  - `Wrappers` stands for None and raised exceptions.

Files are given as the sequences of their lines or rows. An exception is an
`Err` value naming the Python exception and its cause.

`tools/mal2morphstore/mal2morphstore/translation.py` uses `Nto1Join` and the
analysis result's `varsUnique`. Both exist only in the mal2x catalog and
analysis (`tools/mal2x/mal2morphstore/operators.py`,
`tools/mal2x/mal2morphstore/analysis.py`), so the translator is modelled
against those. The format-less catalog and its analysis are modelled on their
own.

Where the code and its documentation differ, the model follows the code. For
example, `translate` does not check that the input ended in the epilogue
step. Quirks of the code are reproduced as written:
- a `>` comparison maps to an equality;
- two column nodes never compare equal;
- the Project rule of `_configCompr_AllDynamicVBP_ProjectStaticVBP` compares
  later inputs with a format string, not a column name (see "## Findings");
- the BETWEEN rewrite does not reject LIKE.

For that Project rule, `ComprDynamic` also defines the evidently intended
comparison (`AllDynamicVBPProjectStaticVBPIntended`). Both variants are
proved to fill every format slot and to feed the Morph insertion. The
configuration that `configCompr` dispatches to, and that the class `Compr.Query`
runs, is the code as written, because that is what the translator executes.

## Model

| member | source | states |
|---|---|---|
| Formats.StandAloneName | tools/mal2x/mal2morphstore/formats.py:58-65 | the name a stand-alone format hands to its base class has at least the two characters of its "_f" suffix |
| Formats.StandAloneNames | tools/mal2x/mal2morphstore/formats.py:58-69 | every stand-alone class passes the base class's "_f" name check, and its simple name is that name without the suffix |
| Formats.NewStaticVBP | tools/mal2x/mal2morphstore/formats.py:110-114 | a static VBP format keeps the style, bit width and mode it is given, and its step is the style's vector element count |
| Formats.NewDynamicVBP | tools/mal2x/mal2morphstore/formats.py:145-181 | a dynamic VBP format takes its block size, page size and step from the style's vector parameters |
| Formats.NewKWiseNS | tools/mal2x/mal2morphstore/formats.py:183-219 | k-wise null suppression is built only for the 128-bit SSE style; every other style is an error |
| Formats.NewDelta | tools/mal2x/mal2morphstore/formats.py:221-250 | the logical delta format keeps style and mode, and its step is the style's vector element count |
| Formats.NewFor | tools/mal2x/mal2morphstore/formats.py:252-288 | the logical frame-of-reference format keeps style and mode, and its page size is the style's vector element count |
| Formats.NewDeltaCasc | tools/mal2x/mal2morphstore/formats.py:310-343 | a delta cascade holds its block size, its physical format and a logical delta format built with the cascade's own mode |
| Formats.NewForCasc | tools/mal2x/mal2morphstore/formats.py:345-383 | a frame-of-reference cascade holds its block size, its physical format and a logical for format built with the cascade's own mode |
| Formats.BuiltIsWellFormed | tools/mal2x/mal2morphstore/formats.py:290-383 | every format the constructors can build has, at every depth, a cascade whose logical part is of the class the cascade names |
| Formats.EqReflexive | tools/mal2x/mal2morphstore/formats.py:120-130 | format equality is reflexive |
| Formats.EqSymmetric | tools/mal2x/mal2morphstore/formats.py:120-130 | format equality is symmetric |
| Formats.EqTransitive | tools/mal2x/mal2morphstore/formats.py:120-130 | format equality is transitive, so it is an equivalence although it ignores the processing style |
| Formats.EqSameNames | tools/mal2x/mal2morphstore/formats.py:116-137 | equal formats agree on class, simple name, C++ type and hash, so equality compares what the generated code depends on |
| Formats.StaticVBPNameUnsetBw | tools/mal2x/mal2morphstore/formats.py:132-137 | while its bit width is unset, the C++ type of a static VBP format carries the literal "bw" where the width goes |
| Formats.ChangeModeOnlyMode | tools/mal2x/mal2morphstore/formats.py:139-140 | changing the mode of a built format changes every mode in it, a cascade's parts included, and nothing else; the result is again a built format |
| Formats.ChangeModeTwice | tools/mal2x/mal2morphstore/formats.py:139-140 | changing the mode twice is the same as changing it once to the second mode |
| Formats.WithModeTwice | tools/mal2x/mal2morphstore/formats.py:139-140 | setting every mode twice is the same as setting it once to the second mode |
| Formats.ChangeBwOnlyBw | tools/mal2x/mal2morphstore/formats.py:142-143 | changing the bit width of a static format changes only the bit width, and changing it back restores the format |
| Formats.Cascades | tools/mal2x/mal2morphstore/formats.py:399-401 | there is one delta and one for cascade per physical format, so the list is twice as long |
| Formats.AllFormatsCatalogue | tools/mal2x/mal2morphstore/formats.py:385-403 | the catalogue lists uncompressed, static VBP, dynamic VBP (plus k-wise NS for SSE only), then a delta and a for cascade over each dynamic format, in that order |
| Formats.CatalogueSse | tools/mal2x/mal2morphstore/formats.py:385-403 | the SSE catalogue is the eight formats, entry by entry |
| Formats.CatalogueOther | tools/mal2x/mal2morphstore/formats.py:385-403 | any other style's catalogue is the five formats without k-wise null suppression, entry by entry |
| Formats.AllFormatsBuilt | tools/mal2x/mal2morphstore/formats.py:385-403 | every catalogue entry is built from the style table, and each cascade in it has the cascade block size |
| Formats.ConstructorNames | tools/mal2x/mal2morphstore/formats.py:67-69 | the simple names of the constructors' formats, a cascade's being "delta+" or "for+" followed by its physical format's name |
| Formats.NamesDistinct | tools/mal2x/mal2morphstore/formats.py:385-403 | no simple name appears twice in either catalogue, so a name picks at most one format |
| Formats.FirstByName | tools/mal2x/mal2morphstore/formats.py:411-419 | the lookup returns the first format with the given simple name, and fails exactly when no format has it |
| Formats.ByNameRoundTrip | tools/mal2x/mal2morphstore/formats.py:411-419 | the lookup fails exactly for names outside the style's catalogue, and every catalogued format is found again by its own simple name |
| Formats.AllSimpleNamesCoverEveryStyle | tools/mal2x/mal2morphstore/formats.py:405-409 | the names listed for SSE contain the simple names of every style's catalogue |
| Greedy.NextPowerOfTwo | ssb/greedy.py:96-100 | the loop over 2, 4, 8, 16, 32 adds a width exactly when the needed width is at most 32, and then adds the least of those powers not below it |
| Greedy.Ascending | ssb/greedy.py:102 | the widths kept are exactly the members of the set inside the range, strictly ascending |
| Greedy.GetBwChoiceSpec | ssb/greedy.py:86-102 | the choice is the candidate set sorted, without duplicates and without widths of 64 or more; no candidate is below the needed width, which comes first when it is below 64; a multiple of 8 gets the next multiple as its byte candidate |
| Greedy.AscendingLeast | ssb/greedy.py:102 | the least in-range member of the set comes first in the sorted list |
| Greedy.BwCandidatesFacts | ssb/greedy.py:91-95 | the needed width is a candidate, no candidate is below it, and for a multiple of 8 the byte candidate is the width plus 8 |
| Greedy.GetBwChoiceAtMostFour | ssb/greedy.py:86-102 | at most four bit widths are ever tried for a column |
| Greedy.StaticChoices | ssb/greedy.py:110-111 | one static VBP format per chosen width, in the order of the widths |
| Greedy.SequentialChoices | ssb/greedy.py:112-125 | the formats without random access are dynamic VBP and a delta and a for cascade over it, with the cascade block size |
| Greedy.GetFmtChoiceSpec | ssb/greedy.py:104-126 | the choice lists one static format per candidate width in order, followed by the three sequential formats exactly when the column is never accessed randomly |
| Greedy.GetFmtChoiceAtMostSeven | ssb/greedy.py:104-126 | every column's choice list has at most seven formats |
| Greedy.GetAltSimpleNameSpec | ssb/greedy.py:44-52 | only static formats get a width suffix; two static formats with set widths share a saved name exactly when their widths agree |
| Greedy.CountFmtCombs | ssb/greedy.py:236-243 | the count is one for leaving everything uncompressed plus the choice-list length of every column that is neither a result nor forced uncompressed |
| Greedy.ChoiceCountBounds | ssb/greedy.py:236-243 | the count grows by at most seven per column and stays at one when every column is a result or forced uncompressed |
| QDict.FindTblFrom | tools/dict/qdict.py:75-88 | the scan fails only with "no table" or "ambiguous" |
| QDict.FirstListing | tools/dict/qdict.py:76-80 | the first catalog entry from a position on that lists the column, with none listing it before |
| QDict.FindTblFromSpec | tools/dict/qdict.py:75-95 | from any point of the scan: a table already met plus a further listing is ambiguous; otherwise the result depends only on how many later entries list the column |
| QDict.FindTblNameSpec | tools/dict/qdict.py:68-95 | the table is returned exactly when one catalog entry lists the column; none is "no table", several is "ambiguous" naming the first two tables that list it |
| QDict.FindTblNameLoop | tools/dict/qdict.py:75-95 | the loop over the catalog computes the lookup above |
| QDict.FindValFrom | tools/dict/qdict.py:108-118 | the search fails only with "not in dictionary" or the error of indexing an empty line |
| QDict.FindValFromSpec | tools/dict/qdict.py:108-118 | from any line on, the search finds the first line equal to the value once one trailing newline is dropped, and fails when there is none |
| QDict.FindValInSpec | tools/dict/qdict.py:97-119 | the code of a value is the index of the first dictionary line equal to it without its trailing newline; the value is missing exactly when no line matches and no empty line stops the search first |
| QDict.FindValLoop | tools/dict/qdict.py:108-113 | the loop with its `break` computes the search above |
| QDict.FindValCodeSpec | tools/dict/qdict.py:97-119 | a found code is the line of the value in the file of that table and column, with no earlier line holding it |
| QDict.CheckNotLikeSpec | tools/dict/qdict.py:186-192 | the check refuses exactly the operators that spell LIKE in some letter case |
| QDict.ReplaceColCmpLitSpec | tools/dict/qdict.py:194-205 | LIKE is refused before any lookup; a successful replacement is the prefix, the literal's dictionary code in the column's table, and the comment naming table, column and value |
| QDict.ReplaceLitCmpColSpec | tools/dict/qdict.py:207-218 | as for the column-first form, with the code and comment written before the suffix |
| QDict.ReplaceColBetweenSpec | tools/dict/qdict.py:220-241 | BETWEEN is never checked for LIKE; on success both literals are replaced, in order, by their codes in the same dictionary, with the prefix, a blank and the infix kept |
| DbDict.IsIntMeaning | tools/dict/dbdict.py:88-91 | a nonempty string of digits is read by `int` as the number it spells, while the empty string passes the check although `int` rejects it |
| DbDict.FirstLineEntries | tools/dict/dbdict.py:113-115 | the fields of the first line hold no separator |
| DbDict.NonIntColumns | tools/dict/dbdict.py:125-131 | the coded columns are exactly the positions whose first-row field is not all digits, in increasing order |
| DbDict.NonIntColumnsLoop | tools/dict/dbdict.py:125-131 | the enumeration loop computes exactly those column positions |
| DbDict.DistinctValuesStart | tools/dict/dbdict.py:148 | before the first line every coded column's value set is empty |
| DbDict.DistinctValuesNext | tools/dict/dbdict.py:150-154 | one more line adds its field to the value set of each coded column |
| DbDict.ShortRowFails | tools/dict/dbdict.py:153-154 | a row too short for some coded column makes the whole first pass fail |
| DbDict.AddRowValues | tools/dict/dbdict.py:153-154 | the inner loop fails with an index error exactly when the row lacks a coded column's field, and otherwise adds each coded field to its column's set |
| DbDict.FirstPassLoop | tools/dict/dbdict.py:143-154 | the first pass builds every coded column's set of distinct values, or fails on a short row; without coded columns no line is read |
| DbDict.BuildDictionaries | tools/dict/dbdict.py:156-158 | each coded column's dictionary is its distinct values sorted by Python's string order |
| DbDict.CodesDense | tools/dict/dbdict.py:166-174 | the codes of a column with n distinct values are exactly 0 to n - 1, each used once |
| DbDict.CodesOrderPreserving | tools/dict/dbdict.py:156-174 | the coding preserves order: one value is below another exactly when its code is, and distinct values get distinct codes |
| DbDict.CodeDictEnumerates | tools/dict/dbdict.py:166-174 | the encoding dictionary maps the value at each position of the sorted list to the decimal form of that position |
| DbDict.ReplaceCoded | tools/dict/dbdict.py:216-217 | replacing the coded fields keeps the number of fields |
| DbDict.ReplaceCodedSpec | tools/dict/dbdict.py:216-217 | the replacement rewrites exactly the coded fields with their codes, keeps the others, and fails when a coded field is missing or has no code |
| DbDict.ReplaceCodedOk | tools/dict/dbdict.py:216-217 | the replacement succeeds exactly when every coded column has a field in the row and a code for it |
| DbDict.ReplaceCodedFields | tools/dict/dbdict.py:216-217 | each field of a replaced row is the code of the original for a coded column and the original otherwise |
| DbDict.ReplaceCodedLoop | tools/dict/dbdict.py:216-217 | the in-place replacement loop computes that replacement |
| DbDict.RowValues | tools/dict/dbdict.py:219-224 | an accepted row yields one value per column |
| DbDict.RowValuesAt | tools/dict/dbdict.py:219-224 | in an accepted row each column's value is the integer its field spells |
| DbDict.RowValuesErrorStays | tools/dict/dbdict.py:219-224 | the first failing column decides the error, and later columns are not read |
| DbDict.RowValuesLoop | tools/dict/dbdict.py:219-224 | the column loop parses every value, checks it against the range of "<Q", and raises each column's running maximum to it when it is larger |
| DbDict.EncodeLine | tools/dict/dbdict.py:215-224 | an encoded row holds one value per column |
| DbDict.EncodeRow | tools/dict/dbdict.py:215-225 | one row of the second pass rewrites the line, joins it again, and folds its values into the running maxima |
| DbDict.EncodedLineFields | tools/dict/dbdict.py:215-218 | a rewritten line splits back into the original fields with the coded ones replaced by their codes; integer fields pass through unchanged |
| DbDict.CodesSeparatorFree | tools/dict/dbdict.py:166-174 | codes are digit strings, so none contains the separator and joining a rewritten row keeps its fields apart |
| DbDict.SecondPass | tools/dict/dbdict.py:212-225 | the second pass yields one rewritten line and one row of values per table line |
| DbDict.SecondPassRectangular | tools/dict/dbdict.py:212-225 | every row of the second pass holds a value for every column |
| DbDict.SecondPassErrorStays | tools/dict/dbdict.py:212-225 | a failing row stops the second pass with its own error |
| DbDict.SecondPassRow | tools/dict/dbdict.py:212-225 | each output line and value row is the encoding of the input line at the same position |
| DbDict.SecondPassStep | tools/dict/dbdict.py:213-225 | one step of the second pass extends the encoded prefix by one row, keeps the array of maxima equal to the maxima of the rows so far, or stops with the pass's error |
| DbDict.SecondPassLoop | tools/dict/dbdict.py:209-225 | the second pass over all lines, with the maxima kept in an array that ends as every column's largest value |
| DbDict.MaxVals | tools/dict/dbdict.py:209-224 | there is one maximum per column |
| DbDict.MaxColSpec | tools/dict/dbdict.py:209-224 | a column's maximum bounds every value of the column, and unless it is 0 some row holds it |
| DbDict.FinishEncodingLoop | tools/dict/dbdict.py:166-225 | the steps after the dictionaries are built compute the code dictionaries, the header check and the second pass |
| DbDict.EncodeTable | tools/dict/dbdict.py:93-239 | the method computes the whole encoding of a table: the column check, both passes, the dictionaries, the header words, the rewritten lines and the value rows |
| DbDict.ColumnCountChecked | tools/dict/dbdict.py:113-123 | a table whose first line has a different number of fields than the schema has columns is rejected before anything else |
| DbDict.CodedColumns | tools/dict/dbdict.py:125-164 | exactly the columns whose first-row value is not all digits get a dictionary |
| DbDict.HeaderWords | tools/dict/dbdict.py:143-154 | the header words of every column file are the first-pass row count and eight times it, and the cardinality is the second pass's row count; the first pass reads the table only when some column is coded, so for an all-integer table the header says 0 rows |
| DbDict.LittleEndianRoundTrip | tools/dict/dbdict.py:203-205 | reading back the little-endian bytes of a value that fits gives the value |
| DbDict.PackQRoundTrip | tools/dict/dbdict.py:203-205 | every value "<Q" accepts takes eight bytes and is read back unchanged |
| DbDict.EncodeTableParts | tools/dict/dbdict.py:93-239 | an accepted table's encoding is made of the sorted dictionaries, the header words and the second pass over all lines |
| DbDict.ColumnFileHeader | tools/dict/dbdict.py:199-205 | a column file starts with the row count and the byte size as little-endian 64-bit words, followed by the column's value of each row |
| DbDict.HeaderBounded | tools/dict/dbdict.py:199-205 | once the header check passes for a table with columns, both header words fit "<Q" |
| DbDict.DictFileLines | tools/dict/dbdict.py:159-164 | the dictionary file has one line per dictionary value |
| DbDict.DictFileReadBack | tools/dict/dbdict.py:159-164 | a dictionary file read line by line gives back its lines, as long as no value holds a newline |
| DbDict.DictFileLookup | tools/dict/qdict.py:97-119 | the query-side lookup finds each value of a dictionary file at its code |
| DbDict.LineRoundTrip | tools/dict/dbdict.py:215-218 | in one line, every coded field becomes the code that the query-side lookup finds for it in the dictionary file, and the others are copied |
| DbDict.EncodingRoundTrip | tools/dict/dbdict.py:156-225 | every coded field of every row becomes the code that the query side finds for the original value in that column's dictionary file, and every other field is copied unchanged into the rewritten line |
| DbDict.StatsFromSpec | tools/dict/dbdict.py:227-235 | a column name's entry in the stats holds the maximum of the last column of that name |
| DbDict.StatsFromKeys | tools/dict/dbdict.py:227-235 | the column entries of the stats are keyed by exactly the schema's column names |
| DbDict.StatsOfTable | tools/dict/dbdict.py:227-235 | the stats of an accepted table record the row count under "_candinality", and every other column name not repeated later in the schema maps to the largest value of its column |
| Csv2Json.IntOf | tools/csv2json/csv2json.py:97-99 | `int` of a field succeeds exactly when the field is present and spells an integer, and then gives that integer; a missing field is a TypeError |
| Csv2Json.StopSpec | tools/csv2json/csv2json.py:84-86 | no row before the stop is "[RES]", and the row at the stop, if there is one, is |
| Csv2Json.RowReader.constructor | tools/csv2json/csv2json.py:69-73 | a fresh reader has every line with at least one field still to come |
| Csv2Json.RowReader.Next | tools/csv2json/csv2json.py:81 | `next` hands out the first remaining row and drops it from what remains, or reports the end when nothing remains |
| Csv2Json.SkipHeader | tools/csv2json/csv2json.py:76-77 | skipping the four header rows succeeds exactly when at least four rows remain, and then drops exactly those four |
| Csv2Json.OpStep | tools/csv2json/csv2json.py:82-99 | one row of the loop stores its runtime under "query" or under its mapped name and index, advancing the index only for operator rows, or fails on its runtime field |
| Csv2Json.OpsFromStep | tools/csv2json/csv2json.py:81-99 | after one row, the rest of the conversion is the conversion of the remaining rows from the new index and entries |
| Csv2Json.ConvertOperatorFile | tools/csv2json/csv2json.py:57-101 | the method computes the operator conversion of all rows the reader has left |
| Csv2Json.OpKeyDistinct | tools/csv2json/csv2json.py:91-95 | two operator keys coincide only for the same index, and no operator key is "query" |
| Csv2Json.OpsFromKeeps | tools/csv2json/csv2json.py:91-99 | an entry already made under an operator key is never overwritten by a later row |
| Csv2Json.OpsRuntimeKept | tools/csv2json/csv2json.py:81-99 | every operator row before "[RES]" keeps its runtime under its mapped name and an index that counts only operator rows; "morph" and "query" rows take no index |
| Csv2Json.OpsQueryRuntime | tools/csv2json/csv2json.py:91-99 | the "query" entry holds the runtime of the last "query" row before "[RES]" |
| Csv2Json.QueryKept | tools/csv2json/csv2json.py:91-99 | without another "query" row before "[RES]", the "query" entry stays as it was |
| Csv2Json.OpsErrors | tools/csv2json/csv2json.py:81-99 | after the header only the TypeError or ValueError of a runtime field can occur, and the rows after "[RES]" are never looked at |
| Csv2Json.ConvertOperatorsHeader | tools/csv2json/csv2json.py:76-77 | a file with fewer than four rows fails with StopIteration, and the contents of the four skipped rows do not matter |
| Csv2Json.PyIndex | tools/csv2json/csv2json.py:180 | indexing the format list succeeds exactly for -5 to 4; negative positions count from the end |
| Csv2Json.FormatNameSpec | tools/csv2json/csv2json.py:155-180 | the format name is "uncompr" for a missing field, the list entry for a number from -5 to 4 (counted from the end when negative), and the field's error when it is no integer |
| Csv2Json.FlagsNeverSet | tools/csv2json/csv2json.py:181-182 | the sorted and unique flags are always false, because a field value (a string or None) never equals the integer 1 |
| Csv2Json.BwHist | tools/csv2json/csv2json.py:184-190 | a complete histogram has one count per bit width |
| Csv2Json.BwHistSpec | tools/csv2json/csv2json.py:184-190 | the histogram succeeds exactly when every count field is an integer, and then holds the counts in bit-width order |
| Csv2Json.BwHistErrorStays | tools/csv2json/csv2json.py:184-190 | the first bad count decides the error |
| Csv2Json.BwHistLoop | tools/csv2json/csv2json.py:184-190 | the loop over widths 1 to 64 computes the histogram |
| Csv2Json.EntryOf | tools/csv2json/csv2json.py:170-183 | a row that converts reaches at least the value-count field |
| Csv2Json.DataStep | tools/csv2json/csv2json.py:159-190 | one row of the loop adds or replaces its column's object, skips a morph row without a base column, or fails |
| Csv2Json.DataFromStep | tools/csv2json/csv2json.py:158-190 | a failing row ends the conversion with its error; otherwise the rest of the conversion continues from the updated objects |
| Csv2Json.ConvertDataChFile | tools/csv2json/csv2json.py:103-192 | the method computes the data-characteristics conversion of all rows the reader has left |
| Csv2Json.AddsOf | tools/csv2json/csv2json.py:158-190 | the additions never outnumber the rows |
| Csv2Json.DataFromFold | tools/csv2json/csv2json.py:158-190 | a successful conversion is the fold of what each row before "[RES]" adds, one addition per such row |
| Csv2Json.AddsOfAt | tools/csv2json/csv2json.py:158-190 | the k-th addition of the fold is what the k-th row converts to |
| Csv2Json.FoldLastWins | tools/csv2json/csv2json.py:170 | in the fold, the last addition of a key decides its object |
| Csv2Json.FoldKeeps | tools/csv2json/csv2json.py:170 | a key no addition touches keeps its object |
| Csv2Json.DataLastWins | tools/csv2json/csv2json.py:158-190 | each kept row before "[RES]" has its object under its key unless a later row before "[RES]" has the same key: the last row of a key wins |
| Csv2Json.MorphKeyOfBaseColumn | tools/csv2json/csv2json.py:163-167 | the output column of a morph of a base column, named table_column__suffix, is keyed by the base column's name table.column |
| Csv2Json.MorphKeySkips | tools/csv2json/csv2json.py:163-169 | a morph row is skipped exactly when its column name starts with "X" or "C" or has no "__"; a missing name is a TypeError and an empty one an IndexError |
| Columns.UnsetLabelIsEmpty | tools/mal2x/mal2dot/columns.py:9-14 | a node built without a label shows the empty label |
| Columns.NameStr | tools/mal2x/mal2dot/columns.py:17-18 | the identifier has the column name's length, contains no ".", and keeps every other character in place |
| Columns.NeverEqual | tools/mal2x/mal2dot/columns.py:23-27 | no two nodes compare equal, not even a node with itself, and `!=` always holds, because `__eq__` compares the name with the method object rather than its result |
| Columns.ColorAndStyleMarkUse | tools/mal2x/mal2dot/columns.py:49-90 | an intermediate column is drawn in the intermediate colour, opaque exactly when it is used and half transparent otherwise; base and result colours carry no transparency suffix; only an unused intermediate is dashed |
| Columns.ColumnFactory | tools/mal2x/mal2dot/columns.py:92-102 | a created node carries the column's name and the given label |
| Columns.ColumnFactorySpec | tools/mal2x/mal2dot/columns.py:92-102 | the factory raises exactly for a column in none of the four groups, and a column in several groups gets the class of the first group, in the order base, used, unused, result |
| Visualize.UnionOfMembers | tools/mal2x/mal2dot/visualize.py:9-16 | a value is in the union of the collected sets exactly when one of the sets holds it |
| Visualize.CollectedNext | tools/mal2x/mal2dot/visualize.py:9-16 | one more program element adds the values of its "in" or "out" attributes |
| Visualize.NodesOfAppend | tools/mal2x/mal2dot/visualize.py:41-43 | the nodes of two programs joined are the nodes of the first, then those of the second |
| Visualize.NodesOfCount | tools/mal2x/mal2dot/visualize.py:41-43 | exactly one node is added per node element of the program |
| Visualize.Classify | tools/mal2x/mal2dot/visualize.py:17-21 | base, used and unused columns are pairwise disjoint; base and used columns together are the inputs; no base column is an output; unused columns are the outputs that are neither inputs nor results |
| Visualize.SlotValuesNext | tools/mal2x/mal2dot/visualize.py:12-16 | one more attribute adds its value to the set of its direction |
| Visualize.CollectSlots | tools/mal2x/mal2dot/visualize.py:12-16 | the inner loop adds the values of a node's "in" attributes to the input set and those of its "out" attributes to the output set |
| Visualize.CollectColumns | tools/mal2x/mal2dot/visualize.py:9-16 | the first loop collects the values of every node's input and output attributes |
| Visualize.AddOperators | tools/mal2x/mal2dot/visualize.py:41-43 | the second loop adds the program's nodes to the graph in program order |
| Visualize.DotAnalyze | tools/mal2x/mal2dot/visualize.py:5-44 | the column groups are the classification of the collected values, and the nodes are added in program order |
| Visualize.GraphColumnsClassified | tools/mal2x/mal2dot/visualize.py:17-43 | when the graph adds a node, each of its columns finds a class: an input is a base column exactly when no node outputs it; an output is a used intermediate when some node reads it, else a result when it is one, else an unused intermediate |
| SortedStrings.LessTransitive | tools/dict/dbdict.py:157 | Python's string order, under which the dictionaries are sorted, is transitive |
| SortedStrings.LessTotal | tools/dict/dbdict.py:157 | any two distinct strings are ordered one way or the other |
| SortedStrings.SortedMembers | tools/dict/dbdict.py:157 | `sorted` of a set lists each member exactly once and nothing else |
| SortedStrings.SortedAscending | tools/dict/dbdict.py:157 | `sorted` of a set is strictly ascending |
| SortedStrings.IndexOfOrder | tools/dict/dbdict.py:166-174 | in a strictly ascending list, positions order the members as the strings are ordered, and equal positions mean equal strings |
| SortedStrings.IndexOfAt | tools/dict/dbdict.py:166-174 | in a strictly ascending list the position of the i-th member is i |
| SortedStrings.LeastOf | tools/dict/dbdict.py:157 | the selection loop finds the least member of a nonempty set |
| SortedStrings.SortSet | tools/dict/dbdict.py:157 | the repeated-selection loop computes `sorted` of the set |
| Strings.ReplaceChar | tools/mal2x/mal2dot/columns.py:17-18 | `replace` of one character keeps the length and changes exactly the occurrences of that character |
| Strings.ReplaceFirstCharSpec | tools/csv2json/csv2json.py:167 | `replace(a, b, 1)` changes nothing without an `a`, and otherwise only the first `a` |
| Strings.FindSpec | tools/csv2json/csv2json.py:165-167 | `find` returns the first occurrence, and nothing only when there is none |
| Strings.NatToString | tools/dict/dbdict.py:170 | `str` of a natural number is a nonempty run of digits without a leading zero |
| Strings.ParseNatToString | tools/dict/dbdict.py:219-224 | reading back the decimal form of a natural number gives the number |
| Strings.PyIntNatToString | tools/dict/dbdict.py:219-224 | Python's `int`, which first strips whitespace, reads the decimal form of a natural number back unchanged |
| Strings.NatToStringInjective | tools/csv2json/csv2json.py:94 | distinct numbers have distinct decimal forms |
| Strings.Split | tools/dict/dbdict.py:114 | `split` of one separator gives at least one piece, and no piece contains the separator |
| Strings.JoinSplit | tools/dict/dbdict.py:214-218 | joining the pieces of a split gives the line back |
| Strings.SplitJoin | tools/dict/dbdict.py:214-218 | splitting a join of separator-free pieces gives the pieces back |
| Strings.RStripSpec | tools/dict/dbdict.py:113 | `rstrip` keeps a prefix that does not end in whitespace and drops only whitespace |
| Strings.LStripSpec | tools/dict/dbdict.py:219-224 | `lstrip`, the first half of the whitespace stripping `int` does, keeps a suffix that does not start with whitespace and drops only whitespace |
| Strings.StripPadded | tools/mal2morphstore/mal2morphstore/translation.py:659 | `strip` removes exactly the whitespace around a line: a line without whitespace at either end, padded with any whitespace on either side, strips back to itself |
| Strings.StripIdempotent | tools/mal2morphstore/mal2morphstore/translation.py:659 | a stripped line has no whitespace at either end, so stripping it again changes nothing |
| Strings.UpperAscii | tools/dict/qdict.py:191 | ASCII upper-casing keeps the length and changes only lower-case letters |
| Strings.TextLines | tools/dict/qdict.py:108 | iterating over a text yields only nonempty lines |
| Regex.FullMatch | tools/mal2morphstore/mal2morphstore/translation.py:158-172 | a full match sets every group that lies outside an optional, alternative or repeated part of the pattern |
| Regex.PrefixMatch | tools/mal2morphstore/mal2morphstore/translation.py:309-316 | a prefix match ends no earlier than the pattern's least width and sets every unconditional group |
| Regex.FullMatchLiteral | tools/mal2morphstore/mal2morphstore/translation.py:158-172 | a literal pattern fully matches exactly its own text |
| Regex.DigitRun | tools/mal2morphstore/mal2morphstore/translation.py:236-243 | `\d+` takes the maximal run of ASCII digits from a position |
| MalPatterns.ResBatGroups | tools/mal2morphstore/mal2morphstore/translation.py:237-238 | the single-BAT result pattern always sets exactly its one group |
| MalPatterns.ResTupleGroups | tools/mal2morphstore/mal2morphstore/translation.py:239-240 | the two- and three-BAT result patterns set one group per BAT, numbered from the left |
| MalPatterns.PositionListsNext | tools/mal2morphstore/mal2morphstore/translation.py:309-316 | one turn of the loop over position lists consumes a nonempty prefix and yields its first group as the next list |
| MalPatterns.ResultColumnNamesNext | tools/mal2morphstore/mal2morphstore/translation.py:771-777 | one turn of the loop over result columns consumes a nonempty prefix and yields its first group as the next column |
| Translation.SetName | tools/mal2morphstore/mal2morphstore/translation.py:138-156 | adding a name-map entry keeps the map a dictionary: its key order lists each key once, a new key at the end and an old one in its place |
| Translation.KeptPositions | tools/mal2morphstore/mal2morphstore/translation.py:309-316 | a projection never applies more position lists than its parameters name |
| TranslationRules.MapNameIfCases | tools/mal2morphstore/mal2morphstore/translation.py:138-156 | a name missing from the map reads as itself, an alias as the aliased name, and a base-column entry as "table.column" |
| TranslationRules.SetNameMapsKey | tools/mal2morphstore/mal2morphstore/translation.py:138-156 | a new entry changes how its own key reads and no other name |
| TranslationRules.AddColumnColumns | tools/mal2morphstore/mal2morphstore/translation.py:216-219 | adding a column to the table dictionary adds it to its own table's entry only |
| TranslationRules.AddColumnTables | tools/mal2morphstore/mal2morphstore/translation.py:216-218 | a new table is added at the end of the dictionary, and a known table keeps its place |
| TranslationRules.AddColumnKeepsDict | tools/mal2morphstore/mal2morphstore/translation.py:216-219 | the table dictionary stays a dictionary of sets: each table once, each of its columns once |
| TranslationRules.GroupBaseColumnsSpec | tools/mal2morphstore/mal2morphstore/translation.py:214-219 | grouping the base-column entries lists exactly their tables, and for each table exactly the columns those entries name |
| TranslationRules.ColNamesByTblNameSpec | tools/mal2morphstore/mal2morphstore/translation.py:211-219 | the result's schema is a dictionary of sets listing exactly the tables of the name map's base-column entries, and for each exactly the columns those entries name |
| TranslationRules.MappedBaseColumnsAreBase | tools/mal2morphstore/mal2morphstore/translation.py:148-152 | a variable bound to a base column reads, in the translated program, as one of the base columns that the analysis starts from |
| TranslationRules.KeptPositionsSpec | tools/mal2morphstore/mal2morphstore/translation.py:309-316 | the kept position lists are, in order, the name-mapped lists that are neither full-OID BATs nor sort results; none is kept exactly when every list is one of those |
| TranslationRules.ProjectChainShape | tools/mal2morphstore/mal2morphstore/translation.py:331-344 | a chain of projects applies the position lists in order: the first reads the data column, each later one reads its predecessor's output, the last writes the result, and all outputs are distinct |
| TranslationRules.ProjectChainStep | tools/mal2morphstore/mal2morphstore/translation.py:333-344 | step idx of the chain projects from the previous intermediate (or the data column) into the next intermediate (or the result) through the idx-th list |
| TranslationRules.ProjectChainDistinct | tools/mal2morphstore/mal2morphstore/translation.py:333-344 | the outputs of a chain's steps are pairwise distinct names |
| TranslationRules.IntermInjective | tools/mal2morphstore/mal2morphstore/translation.py:336-339 | distinct indices give distinct intermediate names |
| TranslationRules.SingleProjectIsChain | tools/mal2morphstore/mal2morphstore/translation.py:324-330 | one kept position list gives a single project |
| TranslationRules.ProjectionCases | tools/mal2morphstore/mal2morphstore/translation.py:318-344 | with no kept position list the result becomes an alias of the data column; with one or more the nodes are a chain of projects in reverse list order |
| TranslationRules.WritesAreOutSlots | tools/mal2x/mal2morphstore/operators.py:82-87 | the columns a node writes are exactly the names in its output column slots |
| TranslationRules.ReadsAreInSlots | tools/mal2x/mal2morphstore/operators.py:82-87 | the columns a node reads are exactly the names in its input column slots |
| TranslationRules.BetweenOperators | tools/mal2morphstore/mal2morphstore/translation.py:381-410 | BETWEEN selects the lower bound with greater-equal and the upper bound with less-equal, in the spelling of the chosen variant |
| TranslationRules.RangeSelectShape | tools/mal2morphstore/mal2morphstore/translation.py:379-425 | a range selection is a select per bound, their intersection, and an intersection with the candidate list only when one is given that is not a full-OID BAT |
| TranslationRules.RangeSelectNodeFlow | tools/mal2morphstore/mal2morphstore/translation.py:381-425 | the nodes of BETWEEN spelled out, with what each reads and writes |
| TranslationRules.RangeSelectResult | tools/mal2morphstore/mal2morphstore/translation.py:411-425 | BETWEEN writes its result in its last node only, and a useful candidate list is read by that node |
| TranslationRules.RangeSelectFedBy | tools/mal2morphstore/mal2morphstore/translation.py:379-425 | every node of BETWEEN reads the data column, the useful candidate list, or an earlier node's output |
| TranslationRules.FullOidCandidateElided | tools/mal2morphstore/mal2morphstore/translation.py:376-377 | a candidate list that is a full-OID BAT is elided, giving the nodes of a selection without candidates |
| TranslationRules.CandidateTestsDiffer | tools/mal2morphstore/mal2morphstore/translation.py:371-486 | the range select tests the candidate list under its MAL name, the comparison select under its mapped name: a candidate that aliases a full-OID BAT is intersected by the first (four nodes, the last reading it) and elided by the second (one Select writing the result) |
| TranslationRules.ThetaselectShape | tools/mal2morphstore/mal2morphstore/translation.py:483-512 | a comparison selection is one select, intersected with the candidate list when that is useful; only the last node writes the result |
| TranslationRules.ComparisonMap | tools/mal2morphstore/mal2morphstore/translation.py:445-458 | the comparison maps know exactly "<", "<=", "==", ">=" and ">" (any other key is a KeyError); the first four get distinct names, while ">" gets an equality, which in the vectorised map is the very name of "==" |
| TranslationRules.ArithmeticMap | tools/mal2morphstore/mal2morphstore/translation.py:530-545 | the arithmetic maps know exactly "+", "-" and "*", with distinct names; any other function is a KeyError |
| TranslationRules.SqlBindRecordsBaseColumn | tools/mal2morphstore/mal2morphstore/translation.py:603-615 | sql.bind emits no node and binds its result to the base column, which then reads as "table.column" |
| TranslationRules.SqlTidRecordsFullOidBat | tools/mal2morphstore/mal2morphstore/translation.py:617-633 | sql.tid emits no node and records its result as a full-OID BAT |
| TranslationRules.SortRecordsResults | tools/mal2morphstore/mal2morphstore/translation.py:427-443 | algebra.sort emits no node and records its three results as sort results |
| TranslationRules.CastIsAlias | tools/mal2morphstore/mal2morphstore/translation.py:550-553 | an integer cast emits no node; its result reads as its mapped input, and every other name reads as before |
| TranslationRules.AliasRenames | tools/mal2morphstore/mal2morphstore/translation.py:553 | an alias entry leaves the program alone, makes its key read as the aliased name and leaves every other name alone |
| TranslationRules.IgnoredFunctions | tools/mal2morphstore/mal2morphstore/translation.py:725-745 | bat.append, bat.new, querylog.define and sql.mvc leave the state unchanged |
| TranslationRules.UnknownFunctionRaises | tools/mal2morphstore/mal2morphstore/translation.py:746-756 | any other (module, function) pair is an error naming it and the line |
| TranslationRules.RewriteJoinSpec | tools/mal2morphstore/mal2morphstore/translation.py:802-831 | a join becomes an N:1 join whose left input is unique, preferring the join's own left side, with inputs and outputs kept paired; a join with no unique input is the M:N error; any other element is kept |
| TranslationRules.JoinPassSpec | tools/mal2morphstore/mal2morphstore/translation.py:800-831 | the post-pass succeeds exactly when every join has a unique input, and then rewrites each element in its place |
| TranslationProps.EmitSteady | tools/mal2morphstore/mal2morphstore/translation.py:245-256 | appending operator nodes keeps the step, the line and the result columns, only extends the program with nodes, and keeps the name map a dictionary |
| TranslationProps.AggrSubsumSteady | tools/mal2morphstore/mal2morphstore/translation.py:245-256 | aggr.subsum, when it succeeds, only appends nodes and keeps the rest of the translator's state as promised |
| TranslationProps.AggrSumSteady | tools/mal2morphstore/mal2morphstore/translation.py:258-269 | aggr.sum likewise only appends nodes |
| TranslationProps.AlgebraJoinSteady | tools/mal2morphstore/mal2morphstore/translation.py:271-285 | algebra.join likewise only appends nodes |
| TranslationProps.BatMergecandSteady | tools/mal2morphstore/mal2morphstore/translation.py:515-524 | bat.mergecand likewise only appends nodes |
| TranslationProps.GroupGroupSteady | tools/mal2morphstore/mal2morphstore/translation.py:574-586 | group.group likewise only appends nodes |
| TranslationProps.GroupSubgroupSteady | tools/mal2morphstore/mal2morphstore/translation.py:588-601 | group.subgroup likewise only appends nodes |
| TranslationProps.AlgebraSortSteady | tools/mal2morphstore/mal2morphstore/translation.py:427-443 | algebra.sort keeps the program and the name map's dictionary shape |
| TranslationProps.SqlTidSteady | tools/mal2morphstore/mal2morphstore/translation.py:617-633 | sql.tid keeps the program and the name map's dictionary shape |
| TranslationProps.SqlBindSteady | tools/mal2morphstore/mal2morphstore/translation.py:603-615 | sql.bind keeps the program and keeps the name map a dictionary |
| TranslationProps.SelectSteady | tools/mal2morphstore/mal2morphstore/translation.py:349-425 | algebra.select only appends nodes and keeps the rest of the state as promised |
| TranslationProps.ThetaselectSteady | tools/mal2morphstore/mal2morphstore/translation.py:469-512 | algebra.thetaselect only appends nodes and keeps the rest of the state as promised |
| TranslationProps.ProjectionpathSteady | tools/mal2morphstore/mal2morphstore/translation.py:287-344 | algebra.projection(path) only appends nodes, or adds an alias to the name map keeping it a dictionary |
| TranslationProps.BatcalcSteady | tools/mal2morphstore/mal2morphstore/translation.py:546-571 | batcalc only appends nodes, or adds an alias for a cast, keeping the name map a dictionary |
| TranslationProps.DispatchSteady | tools/mal2morphstore/mal2morphstore/translation.py:707-756 | whatever (module, function) an assignment calls, a successful translation only appends nodes and keeps the step, the line, the result columns and the name map's shape |
| TranslationProps.SeparateAppendsBlock | tools/mal2morphstore/mal2morphstore/translation.py:759-763 | the blank line after an assignment is appended only when the assignment appended nodes, so the program grows by one block of nodes and a blank line, or not at all |
| TranslationProps.InitialInvariant | tools/mal2morphstore/mal2morphstore/translation.py:99-136 | the fresh translator is in the prologue, with an empty program and result columns and a name map that is a dictionary |
| TranslationProps.LineStepKeepsInvariant | tools/mal2morphstore/mal2morphstore/translation.py:657-798 | one line keeps the invariant, never moves the step machine back, only extends the program by whole blocks, and records the stripped line as the current line |
| TranslationProps.PaddedLine | tools/mal2morphstore/mal2morphstore/translation.py:657-660 | each line is stripped before any test, so whitespace around a line, such as an indented assignment, translates as the bare line |
| TranslationProps.BlankPrologueLine | tools/mal2morphstore/mal2morphstore/translation.py:675-677 | an empty or whitespace-only line in the prologue strips to the empty string and raises the IndexError of `line[0]` |
| TranslationProps.FromAssignmentsKeepsInvariant | tools/mal2morphstore/mal2morphstore/translation.py:695-798 | the part of a line step that starts at the assignments keeps the invariant |
| TranslationProps.AssignmentLineKeepsInvariant | tools/mal2morphstore/mal2morphstore/translation.py:695-766 | in the assignment step a line is an assignment, which keeps the step, or ends the assignments and moves on to the result set |
| TranslationProps.AfterAssignmentsKeepsInvariant | tools/mal2morphstore/mal2morphstore/translation.py:768-798 | the steps after the assignments end in a resting step and keep the program |
| TranslationProps.AssignmentKeepsInvariant | tools/mal2morphstore/mal2morphstore/translation.py:695-763 | an assignment line keeps the invariant: its nodes, if any, are appended as one block closed by a blank line |
| TranslationProps.LinesKeepInvariant | tools/mal2morphstore/mal2morphstore/translation.py:657-798 | the whole line loop keeps the invariant and only extends the program |
| TranslationProps.PrologueComment | tools/mal2morphstore/mal2morphstore/translation.py:677-679 | a '%' comment in the prologue is skipped and changes nothing but the current line |
| TranslationProps.QueryFunctionStart | tools/mal2morphstore/mal2morphstore/translation.py:684-689 | the first other line succeeds exactly when it opens the query function ("function user."), and the machine then processes assignments |
| TranslationProps.OutputLine | tools/mal2morphstore/mal2morphstore/translation.py:697-699 | in the assignment step a line that is not an assignment succeeds exactly when it is the result set line |
| TranslationProps.ResultSetLine | tools/mal2morphstore/mal2morphstore/translation.py:768-781 | the result set line moves the machine on to the end of the query function, recording the result set's columns |
| TranslationProps.ResultSetAppends | tools/mal2morphstore/mal2morphstore/translation.py:771-777 | the result set's column names, name-mapped, are appended to the result columns in order, and the program is kept |
| TranslationProps.QueryFunctionEnd | tools/mal2morphstore/mal2morphstore/translation.py:786-791 | after the result set, a line succeeds exactly when it ends the query function ("end user.") |
| TranslationProps.EpilogueComment | tools/mal2morphstore/mal2morphstore/translation.py:796-798 | in the epilogue a line succeeds exactly when it is a '#' comment, and it changes nothing but the current line |
| TranslationProps.LinesAppend | tools/mal2morphstore/mal2morphstore/translation.py:657-798 | translating lines one after another is translating their concatenation, an error stopping the loop |
| Translator.TranslationState.constructor | tools/mal2morphstore/mal2morphstore/translation.py:99-136 | the new object holds the initial translation state |
| Translator.TranslationState.MapNameIf | tools/mal2morphstore/mal2morphstore/translation.py:138-156 | the method returns what the name-mapping function gives on the object's state |
| Translator.TranslationState.SetName | tools/mal2morphstore/mal2morphstore/translation.py:138-156 | the name map is updated as the entry function on values says, and nothing else changes |
| Translator.TranslationState.AddHeader | tools/mal2morphstore/mal2morphstore/translation.py:379 | the header is added to the set of headers and nothing else changes |
| Translator.TranslationState.Append | tools/mal2morphstore/mal2morphstore/translation.py:250-255 | the nodes are appended to the program in order and nothing else changes |
| Translator.TranslationState.TranslateAggrSubsum | tools/mal2morphstore/mal2morphstore/translation.py:245-256 | the object ends in the state, or with the error, that aggr.subsum's translation function gives |
| Translator.TranslationState.TranslateAggrSum | tools/mal2morphstore/mal2morphstore/translation.py:258-269 | the object ends as aggr.sum's translation function says |
| Translator.TranslationState.TranslateAlgebraJoin | tools/mal2morphstore/mal2morphstore/translation.py:271-285 | the object ends as algebra.join's translation function says |
| Translator.TranslationState.KeptPositions | tools/mal2morphstore/mal2morphstore/translation.py:309-316 | the loop keeps exactly the position lists the kept-positions function keeps, in order |
| Translator.TranslationState.TranslateAlgebraProjectionpath | tools/mal2morphstore/mal2morphstore/translation.py:287-344 | the object ends as the projection(path) function says |
| Translator.TranslationState.ProjectChain | tools/mal2morphstore/mal2morphstore/translation.py:331-344 | the loop appends exactly the chain of projects, in order |
| Translator.TranslationState.TranslateAlgebraSelect | tools/mal2morphstore/mal2morphstore/translation.py:349-425 | the object ends as algebra.select's translation function says |
| Translator.TranslationState.AppendRangeSelect | tools/mal2morphstore/mal2morphstore/translation.py:381-425 | the appended nodes are exactly those of the range selection |
| Translator.TranslationState.TranslateAlgebraSort | tools/mal2morphstore/mal2morphstore/translation.py:427-443 | the object ends as algebra.sort's translation function says |
| Translator.TranslationState.TranslateAlgebraThetaselect | tools/mal2morphstore/mal2morphstore/translation.py:469-512 | the object ends as algebra.thetaselect's translation function says |
| Translator.TranslationState.AppendThetaselect | tools/mal2morphstore/mal2morphstore/translation.py:491-512 | the appended nodes are exactly those of the comparison selection |
| Translator.TranslationState.TranslateBatMergecand | tools/mal2morphstore/mal2morphstore/translation.py:515-524 | the object ends as bat.mergecand's translation function says |
| Translator.TranslationState.TranslateBatcalc | tools/mal2morphstore/mal2morphstore/translation.py:546-571 | the object ends as batcalc's translation function says |
| Translator.TranslationState.TranslateGroupGroup | tools/mal2morphstore/mal2morphstore/translation.py:574-586 | the object ends as group.group's translation function says |
| Translator.TranslationState.TranslateGroupSubgroup | tools/mal2morphstore/mal2morphstore/translation.py:588-601 | the object ends as group.subgroup's translation function says |
| Translator.TranslationState.TranslateSqlBind | tools/mal2morphstore/mal2morphstore/translation.py:603-615 | the object ends as sql.bind's translation function says |
| Translator.TranslationState.TranslateSqlTid | tools/mal2morphstore/mal2morphstore/translation.py:617-633 | the object ends as sql.tid's translation function says |
| Translator.TranslationState.Dispatch | tools/mal2morphstore/mal2morphstore/translation.py:707-756 | the object ends as the dispatch on the (module, function) pair says, an unknown pair ending in its error |
| Translator.TranslationState.TranslateAssignment | tools/mal2morphstore/mal2morphstore/translation.py:695-763 | the object ends as one assignment followed by its separating blank line says |
| Translator.TranslationState.ResultColumns | tools/mal2morphstore/mal2morphstore/translation.py:771-777 | the loop appends the name-mapped result columns in order |
| Translator.TranslationState.AppendResultColumn | tools/mal2morphstore/mal2morphstore/translation.py:777 | the result columns grow by the next mapped name |
| Translator.TranslationState.FromAssignments | tools/mal2morphstore/mal2morphstore/translation.py:695-798 | the object ends as the line step from the assignment step on says |
| Translator.TranslationState.AssignmentLine | tools/mal2morphstore/mal2morphstore/translation.py:695-766 | the object ends as the assignment step says |
| Translator.TranslationState.AfterAssignments | tools/mal2morphstore/mal2morphstore/translation.py:768-798 | the object ends as the steps after the assignments say |
| Translator.TranslationState.Step | tools/mal2morphstore/mal2morphstore/translation.py:657-798 | one iteration of the line loop, stripping the line first, leaves the object as the line-step function says |
| Translator.TranslationState.ColNamesByTblName | tools/mal2morphstore/mal2morphstore/translation.py:211-219 | the loop over the name map builds exactly the table dictionary that the grouping function describes |
| Translator.TranslationState.RewriteJoins | tools/mal2morphstore/mal2morphstore/translation.py:800-831 | the post-pass leaves the program as the join-pass function says, or stops with its M:N error |
| Translator.TranslationState.RewriteAt | tools/mal2morphstore/mal2morphstore/translation.py:802-831 | the element at the index is rewritten in its place exactly when it is not a join without a unique input |
| Translator.Translate | tools/mal2morphstore/mal2morphstore/translation.py:643-833 | the whole translation of a MAL file's lines, each stripped as it is read, gives what the translation function gives: the program, the result columns and the schema, or the first error |
| Usage.RemoveFirst | tools/mal2x/mal2morphstore/analysis.py:88-89 | removing a present name drops exactly one occurrence of it |
| Usage.Qualified | tools/mal2x/mal2morphstore/analysis.py:65-69 | every column of a table is written "table.column" |
| Usage.BaseColumns | tools/mal2x/mal2morphstore/analysis.py:64-69 | the initially assigned names are exactly the "table.column" names of the schema |
| Usage.InitialConsistent | tools/mal2x/mal2morphstore/analysis.py:64-71 | at the start the base columns are assigned, nothing is reported and nothing is pending |
| Usage.AssignKeepsConsistent | tools/mal2x/mal2morphstore/analysis.py:102-105 | an output slot keeps the tracking consistent |
| Usage.FoundUsageKeepsConsistent | tools/mal2x/mal2morphstore/analysis.py:85-89 | a use keeps the tracking consistent |
| Usage.FoundUsageStaysWithin | tools/mal2x/mal2morphstore/analysis.py:85-89 | a use only removes from the never-used list and reports only the name it uses |
| Usage.UseAllKeepsConsistent | tools/mal2x/mal2morphstore/analysis.py:165-166 | the uses of the result columns keep the tracking consistent |
| Usage.AssignedTwiceNeedsTwoUses | tools/mal2x/mal2morphstore/analysis.py:85-89 | a name assigned twice is pending twice, and needs two uses before it leaves the never-used list |
| Usage.FoundUsageReportsOnce | tools/mal2x/mal2morphstore/analysis.py:85-89 | a use never changes the assigned list, reports its name exactly when it is unassigned or already reported, and otherwise removes one pending occurrence of it when there is one |
| Usage.UseAllOnlyRemoves | tools/mal2x/mal2morphstore/analysis.py:165-166 | uses only ever remove from the never-used list |
| Usage.UseAllReportsOnlyUses | tools/mal2x/mal2morphstore/analysis.py:165-166 | uses report only names among them and leave the assigned list alone |
| Usage.UsesOfAssignedReportNothing | tools/mal2x/mal2morphstore/analysis.py:165-166 | uses of names that are all assigned report nothing new |
| Usage.UseResults | tools/mal2x/mal2morphstore/analysis.py:165-166 | the loop over the result columns applies the uses in order |
| Analysis.UniqueStepRules | tools/mal2x/mal2morphstore/analysis.py:110-163 | the pass raises exactly for Intersect or Merge with a non-unique position input, for an N:1 or left-semi N:1 join whose left data input is not unique, and for a kind without a uniqueness rule (Morph) |
| Analysis.UniqueStepGrowsByOutputs | tools/mal2x/mal2morphstore/analysis.py:110-156 | a node only appends to the unique list, and only its own output columns |
| Analysis.SelectionJoinGrowsByOutputs | tools/mal2x/mal2morphstore/analysis.py:111-135 | projects, selections, intersections, merges and joins only append their own outputs to the unique list |
| Analysis.AggregateGrowsByOutputs | tools/mal2x/mal2morphstore/analysis.py:136-156 | semi-joins, calculations, sums and groupings only append their own outputs to the unique list |
| Analysis.UniqueOutputs | tools/mal2x/mal2morphstore/analysis.py:110-156 | which outputs each kind makes unique: a selection's positions, a whole-column sum, a grouping's extents; a grouping's ids, a project's data and a join's positions when the named inputs are unique; calculations and grouped sums none |
| Analysis.FormatSlotsAreTracked | tools/mal2x/mal2morphstore/analysis.py:101-108 | because only the attribute name's prefix is tested, the format slots of a fresh Project take part in the tracking: the unset output format is assigned, and the first unset input format uses it up |
| Analysis.TrackProjectColumns | tools/mal2x/mal2morphstore/analysis.py:101-108 | the column slots of a Project assign its output and report its two unassigned inputs |
| Analysis.TrackUnsetFormats | tools/mal2x/mal2morphstore/analysis.py:101-108 | the unset format slots of a Project assign None and then use it, reporting nothing |
| Analysis.TrackOne | tools/mal2x/mal2morphstore/analysis.py:101-108 | an "out" attribute assigns its value, an "in" attribute uses it |
| Analysis.UseOfUnsetFormat | tools/mal2x/mal2morphstore/analysis.py:85-89 | the first use of the unset format removes the pending None that the output format added |
| Analysis.TrackAppend | tools/mal2x/mal2morphstore/analysis.py:101-108 | tracking two runs of attributes is tracking one after the other |
| Analysis.TrackKeeps | tools/mal2x/mal2morphstore/analysis.py:98-108 | the tracking of one node keeps the tracking consistent and leaves pending only output values |
| Analysis.RunKeeps | tools/mal2x/mal2morphstore/analysis.py:98-163 | the pass over the program keeps the tracking consistent, leaves pending only output values, and adds only output columns to the unique list |
| Analysis.AnalysisGuarantees | tools/mal2x/mal2morphstore/analysis.py:57-168 | a successful analysis reports no name twice and no base column as used before assigned, every never-used name is the value of an output attribute, the SSB keys are unique, and every other unique name is an output column |
| Analysis.TrackSlots | tools/mal2x/mal2morphstore/analysis.py:101-108 | the loop over one node's attributes tracks them as the tracking function says |
| Analysis.TrackUnique | tools/mal2x/mal2morphstore/analysis.py:110-163 | the if-chain over the node kinds gives the uniqueness step's result or error |
| Analysis.Analyze | tools/mal2x/mal2morphstore/analysis.py:57-168 | the loop over the program, then over the result columns, gives the analysis function's result or its error |
| LegacyAnalysis.TrackAttrKeeps | tools/mal2morphstore/mal2morphstore/analysis.py:76-83 | one attribute keeps the tracking consistent and within the program's outputs and inputs |
| LegacyAnalysis.TrackAttrsKeeps | tools/mal2morphstore/mal2morphstore/analysis.py:76-83 | one node's attributes keep the tracking consistent |
| LegacyAnalysis.RunKeeps | tools/mal2morphstore/mal2morphstore/analysis.py:74-83 | the pass keeps the tracking consistent, with pending names among the outputs and reports among the inputs |
| LegacyAnalysis.AnalysisGuarantees | tools/mal2morphstore/mal2morphstore/analysis.py:52-88 | no column is reported twice, base columns never are, every reported column is read by some node or is a result column, and every never-used column is assigned by some node |
| LegacyAnalysis.TrackAttrsAssigns | tools/mal2morphstore/mal2morphstore/analysis.py:76-80 | a node only appends to the assigned list, and appends each of its outputs |
| LegacyAnalysis.TrackAttrsClean | tools/mal2morphstore/mal2morphstore/analysis.py:76-83 | a node whose inputs are all assigned reports nothing |
| LegacyAnalysis.RunAssigns | tools/mal2morphstore/mal2morphstore/analysis.py:74-80 | after the pass every output column of the program is assigned |
| LegacyAnalysis.RunClean | tools/mal2morphstore/mal2morphstore/analysis.py:74-83 | a program that defines before use reports nothing during the pass |
| LegacyAnalysis.DefinedBeforeUseRest | tools/mal2morphstore/mal2morphstore/analysis.py:74-83 | defining before use carries over to the rest of the program |
| LegacyAnalysis.OutputOfPrefix | tools/mal2morphstore/mal2morphstore/analysis.py:74-80 | an output up to a node comes from the first node or the rest |
| LegacyAnalysis.CleanProgramReportsNothing | tools/mal2morphstore/mal2morphstore/analysis.py:52-88 | when every node reads only base columns or earlier outputs and every result column is assigned, nothing is reported as used before assigned |
| LegacyAnalysis.TrackNode | tools/mal2morphstore/mal2morphstore/analysis.py:76-83 | the loop over one node's attributes tracks them as the tracking function says |
| LegacyAnalysis.Analyze | tools/mal2morphstore/mal2morphstore/analysis.py:52-88 | the loops over the program and the result columns give the analysis function's result |
| Operators.ColumnSlots | tools/mal2x/mal2morphstore/operators.py:89-424 | the column slots of every node kind, in the order its constructor declares them, are all column slots |
| Operators.FormatSlots | tools/mal2x/mal2morphstore/operators.py:89-424 | the format slots of every node kind, set after its columns, are all format slots |
| Operators.SlotKeyConvention | tools/mal2x/mal2morphstore/operators.py:89-424 | an attribute name starts with "out" exactly for outputs and with "in" exactly for inputs, and ends with "Col" for columns and "F" for formats |
| Operators.ParamsAreNotSlots | tools/mal2x/mal2morphstore/operators.py:110-129 | the op and val parameters never look like a slot to a scan over the attributes |
| Operators.ColumnOf | tools/mal2x/mal2morphstore/operators.py:89-424 | a format slot describes the column slot of the same direction and role |
| Operators.FindSlot | tools/mal2x/mal2morphstore/operators.py:89-424 | looking up a slot by direction and role finds one that has them, or there is none |
| Operators.WithFormats | tools/mal2x/mal2morphstore/operators.py:89-424 | setting a node's formats changes only its format slots, each to the given value, and keeps its columns, its kind and its parameters |
| Operators.WithColumns | tools/mal2x/mal2morphstore/operators.py:89-424 | renaming a node's columns changes only its column slots, each to the given name, and keeps its formats, its kind and its parameters |
| Operators.NewProject | tools/mal2x/mal2morphstore/operators.py:96-102 | a new Project has the given columns and every format unset |
| Operators.NewSelect | tools/mal2x/mal2morphstore/operators.py:117-123 | a new Select has the given columns and every format unset |
| Operators.NewIntersect | tools/mal2x/mal2morphstore/operators.py:139-145 | a new Intersect has the given columns and every format unset |
| Operators.NewMerge | tools/mal2x/mal2morphstore/operators.py:160-166 | a new Merge has the given columns and every format unset |
| Operators.NewJoin | tools/mal2x/mal2morphstore/operators.py:182-190 | a new Join has the given columns and every format unset |
| Operators.NewNto1Join | tools/mal2x/mal2morphstore/operators.py:226-234 | a new N:1 join has the given columns and every format unset |
| Operators.NewLeftSemiNto1Join | tools/mal2x/mal2morphstore/operators.py:281-287 | a new left semi N:1 join has the given columns and every format unset |
| Operators.NewCalcBinary | tools/mal2x/mal2morphstore/operators.py:309-316 | a new binary calculation has the given columns and every format unset |
| Operators.NewSumWholeCol | tools/mal2x/mal2morphstore/operators.py:331-336 | a new whole-column sum has the given columns and every format unset |
| Operators.NewSumGrBased | tools/mal2x/mal2morphstore/operators.py:350-359 | a new grouped sum has the given columns and every format unset |
| Operators.NewGroupUnary | tools/mal2x/mal2morphstore/operators.py:383-389 | a new unary grouping has the given columns and every format unset |
| Operators.NewGroupBinary | tools/mal2x/mal2morphstore/operators.py:408-416 | a new binary grouping has the given columns and every format unset |
| OperatorFacts.FormatsDescribeColumns | tools/mal2x/mal2morphstore/operators.py:89-424 | every format slot of every kind describes one of the node's column slots ("inDataF" describes "inDataCol") |
| OperatorFacts.SumWholeColSlots | tools/mal2x/mal2morphstore/operators.py:323-341 | a whole-column sum has an input format slot but no output format slot |
| OperatorFacts.SumGrBasedSlots | tools/mal2x/mal2morphstore/operators.py:343-372 | a grouped sum reads an extents column but has no format slot for it |
| OperatorFacts.Nto1JoinSlotsAreJoinSlots | tools/mal2x/mal2morphstore/operators.py:217-253 | an N:1 join has exactly the slots of a general join with the same fields |
| OperatorFacts.LeftSemiNto1JoinSlots | tools/mal2x/mal2morphstore/operators.py:273-299 | a left semi N:1 join outputs only its right positions, with a format slot for them |
| OperatorFacts.RenderShowsSlots | tools/mal2x/mal2morphstore/operators.py:89-424 | a node's C++ statement names every column it reads or writes and spells out every format it is configured with |
| OperatorFacts.RenderCallsOpName | tools/mal2x/mal2morphstore/operators.py:89-424 | the statement calls the operator its class names in `opName`: both sums call agg_sum, the N:1 join calls join, and the group kinds call the name they carry |
| LegacyOperators.HeaderFiles | tools/mal2morphstore/mal2morphstore/operators.py:78-246 | exactly joins and groupings need the tuple header |
| LegacyOperators.Attrs | tools/mal2morphstore/mal2morphstore/operators.py:78-246 | every node's attributes start with its header list |
| LegacyOperators.AttrKeys | tools/mal2morphstore/mal2morphstore/operators.py:78-246 | every column attribute has one of the in/out column keys; every other attribute is the header list, op or val |
| LegacyOperators.KeyPrefixes | tools/mal2morphstore/mal2morphstore/operators.py:78-246 | the column keys start with "out" or "in", and the other keys with neither |
| LegacyOperators.OnlyColumnsLookLikeColumns | tools/mal2morphstore/mal2morphstore/operators.py:78-246 | exactly the column attributes have names starting with "in" or "out", so the analysis's scan sees nothing else |
| LegacyOperators.AttrsArePieces | tools/mal2morphstore/mal2morphstore/operators.py:78-246 | the rendering of a node contains every column name and parameter |
| LegacyOperators.StyleArePieces | tools/mal2morphstore/mal2morphstore/operators.py:78-246 | every rendering runs in the scalar style, uses the uncompressed format except for the whole-column sum, and a join passes the larger input count |
| LegacyOperators.Render | tools/mal2morphstore/mal2morphstore/operators.py:78-246 | a node's C++ statement names every column and parameter, runs in the scalar style, uses the uncompressed format except for the whole-column sum, and a join passes the larger input count as its cardinality estimate |
| ComprNames.StaticVBPNames | tools/mal2x/mal2morphstore/compr.py:63-74 | two static_vbp_f identifiers are equal exactly when their bit widths and steps agree, so sse and neon share them |
| ComprNames.DynamicNameInjective | tools/mal2x/mal2morphstore/compr.py:97-99 | the spelled-out dynamic_vbp_f name determines all three numbers |
| ComprNames.DynamicParamsShared | tools/mal2x/mal2morphstore/compr.py:76-96 | two styles have the same dynamic parameters exactly when they are equal or are sse and neon |
| ComprNames.DynamicVBPNames | tools/mal2x/mal2morphstore/compr.py:76-99 | two dynamic_vbp_f identifiers are equal exactly when the styles are equal or are sse and neon |
| ComprNames.IdentifierKindsDistinct | tools/mal2x/mal2morphstore/compr.py:61-99 | uncompr_f, dynamic_vbp_f and static_vbp_f identifiers never coincide |
| ComprNames.ShortStaticInjective | tools/mal2x/mal2morphstore/compr.py:115 | short names of distinct bit widths are distinct |
| ComprNames.AllStylesListed | tools/mal2x/mal2morphstore/compr.py:106-112 | the table's loop lists every processing style |
| ComprNames.BuildShortNames | tools/mal2x/mal2morphstore/compr.py:101-115 | the module-level loops build exactly the short-name table |
| ComprNames.StaticEntriesGrow | tools/mal2x/mal2morphstore/compr.py:114-115 | adding a style's static entries keeps every key, adds the identifier of every width up to 64, and keeps every entry meaning what its identifier says |
| ComprNames.EntriesForGrow | tools/mal2x/mal2morphstore/compr.py:106-115 | adding the entries of several styles keeps every key, adds each style's dynamic identifier and its static identifiers of widths 1 to 64, and keeps the table consistent |
| ComprNames.ShortNamesSpec | tools/mal2x/mal2morphstore/compr.py:101-115 | the table holds uncompr_f, every style's dynamic identifier and every style's static identifier of widths 1 to 64, and nothing else; each short name is "u", "d" or "s" followed by the width, as its identifier says |
| ComprNames.UncomprEntry | tools/mal2x/mal2morphstore/compr.py:101-103 | uncompr_f's short name is "u" |
| ComprNames.DynamicEntry | tools/mal2x/mal2morphstore/compr.py:113 | every dynamic_vbp_f identifier's short name is "d" |
| ComprNames.StaticEntry | tools/mal2x/mal2morphstore/compr.py:114-115 | every static_vbp_f identifier's short name is "s" followed by its bit width |
| ComprConfigs.Collect | tools/mal2x/mal2morphstore/compr.py:150-165 | a loop that raises gives all values when every step succeeds, and otherwise the error of the first step that fails |
| ComprConfigs.CollectFirstError | tools/mal2x/mal2morphstore/compr.py:150-165 | the error reported is the one of the first failing step |
| ComprConfigs.Fill | tools/mal2x/mal2morphstore/compr.py:133-135 | setting every format slot of a node to one format keeps its columns and its kind |
| ComprConfigs.AllUncomprSpec | tools/mal2x/mal2morphstore/compr.py:127-135 | after AllUncompr every format slot of every node is uncompr_f, columns, node kinds, lines and result columns are kept, and the two headers are added |
| ComprConfigs.AllUncomprIdempotent | tools/mal2x/mal2morphstore/compr.py:127-135 | running AllUncompr twice is running it once |
| ComprConfigs.FillTwice | tools/mal2x/mal2morphstore/compr.py:133-135 | filling twice with the same format is filling once |
| ComprConfigs.SlotsDetermineNode | tools/mal2x/mal2morphstore/compr.py:89-135 | a node is determined by its kind, its column slots and its format slots |
| ComprConfigs.ProjectByName | tools/mal2x/mal2morphstore/compr.py:156 | a node is a Project exactly when its class name says so |
| ComprConfigs.ColumnOfFill | tools/mal2x/mal2morphstore/compr.py:160-164 | filling keeps which column each format slot describes |
| ComprConfigs.StaticFormatsOfSpec | tools/mal2x/mal2morphstore/compr.py:160-164 | the static formats of a node's format slots fail exactly when a described column has no known bit width, naming such a column; otherwise each slot gets static_vbp_f at its column's bit width |
| ComprConfigs.ColumnsNamed | tools/mal2x/mal2morphstore/compr.py:162 | every format slot names the column slot it describes |
| ComprConfigs.StaticFormatsOfShape | tools/mal2x/mal2morphstore/compr.py:160-164 | only the direction and role of the format slots matter to their static formats |
| ComprConfigs.StaticElementSpec | tools/mal2x/mal2morphstore/compr.py:150-165 | an element after AllUncompr and the static step: lines and other kinds are kept, a static kind gets static_vbp_f at its columns' widths or the missing-width error |
| ComprConfigs.StaticNodeSpec | tools/mal2x/mal2morphstore/compr.py:150-165 | a static-kind node keeps its columns and gets static_vbp_f for each format slot, at the bit width of the column it describes |
| ComprConfigs.AllStaticVBPSpec | tools/mal2x/mal2morphstore/compr.py:140-165 | AllStaticVBP succeeds exactly when every static-kind node has bit widths for its described columns, and otherwise raises on a column without one; on success it adds the three headers, keeps the lines and columns, gives the static kinds static_vbp_f at the widths, and uncompr_f elsewhere |
| ComprDynamic.DynamicElementSpec | tools/mal2x/mal2morphstore/compr.py:181-197 | one element after AllUncompr and the dynamic step has each format slot refilled with the dynamic configuration's choice, columns and kinds kept |
| ComprDynamic.DynamicProjectSpec | tools/mal2x/mal2morphstore/compr.py:193-197 | a Project gets dynamic_vbp_f for its output data and its positions and keeps uncompr_f for its input data |
| ComprDynamic.AllDynamicVBPSpec | tools/mal2x/mal2morphstore/compr.py:171-197 | AllDynamicVBP adds the three headers and gives every format slot of the supporting kinds, and the outDataF and inPosF of a Project, dynamic_vbp_f; every other slot is uncompr_f |
| ComprDynamic.UseFlags | tools/mal2x/mal2morphstore/compr.py:225-235 | the consumer scan says exactly whether some Project, and whether some other node, among the scanned elements reads a column equal to the watched value |
| ComprDynamic.UseFlagsUncompr | tools/mal2x/mal2morphstore/compr.py:227-235 | AllUncompr changes no column and no kind, so the scan sees the same readers as in the input program |
| ComprDynamic.ProjectStaticProjectSpec | tools/mal2x/mal2morphstore/compr.py:224-244 | a Project after AllUncompr and the project-static step gets its output format by its consumers, dynamic_vbp_f for its positions and static_vbp_f for its input data, or the missing-width error |
| ComprDynamic.ProjectNodeSpec | tools/mal2x/mal2morphstore/compr.py:236-244 | the Project branch given the consumer flags: static output when only Projects read it, dynamic when only other nodes do, uncompr_f otherwise |
| ComprDynamic.ProjectStaticOtherSpec | tools/mal2x/mal2morphstore/compr.py:212-223 | every other element gets dynamic_vbp_f in the supporting kinds and keeps uncompr_f elsewhere |
| ComprDynamic.ProjectStaticWithSpec | tools/mal2x/mal2morphstore/compr.py:199-244 | the project-static configuration succeeds exactly when every Project has the bit widths its branch looks up, and otherwise raises on a column without one; on success it adds the four headers and sets each slot as the branches say |
| ComprDynamic.ProjectOutcome | tools/mal2x/mal2morphstore/compr.py:224-244 | the formats of the Project at an index as the configuration leaves it |
| ComprDynamic.AsWrittenProjectOutputUncompressed | tools/mal2x/mal2morphstore/compr.py:231 | as written, the scan compares input columns with the Project's output format, uncompr_f at that point: unless some later node reads a column named "uncompr_f", a Project's output stays uncompr_f whoever consumes it |
| ComprDynamic.IntendedProjectOutput | tools/mal2x/mal2morphstore/compr.py:225-241 | with the scan comparing input columns with the Project's output column, its output is static_vbp_f when only Projects read it, dynamic_vbp_f when only other nodes do, and uncompr_f otherwise |
| ComprDynamic.ProjectScanFinding | tools/mal2x/mal2morphstore/compr.py:231-241 | a Project whose output only a later Project reads keeps uncompr_f as written, and would get static_vbp_f with the scan comparing the output column |
| ComprDynamic.FindingConsumers | tools/mal2x/mal2morphstore/compr.py:227-235 | in the two-Project program the second Project is the only reader of the first one's output |
| ComprDynamic.FindingReady | tools/mal2x/mal2morphstore/compr.py:237-244 | both variants succeed on the two-Project program when its columns have bit widths |
| ComprDynamic.ProjectStaticWithOk | tools/mal2x/mal2morphstore/compr.py:237-244 | the project-static configuration succeeds exactly when every Project has the bit widths its branch looks up |
| ComprCheck.FirstUnsetFrom | tools/mal2x/mal2morphstore/compr.py:278-280 | the first format slot still unset from an index on, or none when every later slot is set |
| ComprCheck.FormatsSetIff | tools/mal2x/mal2morphstore/compr.py:278-280 | a node has no unset slot exactly when all its formats are set |
| ComprCheck.SetBetweenStep | tools/mal2x/mal2morphstore/compr.py:276-286 | the formats are set over a range exactly when the first element has no unset format and the rest are set |
| ComprCheck.CheckFromNone | tools/mal2x/mal2morphstore/compr.py:276-286 | the scan from an element passes exactly when every node from there on has all its formats set |
| ComprCheck.CheckFromSome | tools/mal2x/mal2morphstore/compr.py:276-286 | when the scan raises, it reports the first node from there on with an unset format: its first unset slot, the `opName` of its class and its position among the nodes |
| ComprCheck.CheckAllFormatsSetSpec | tools/mal2x/mal2morphstore/compr.py:274-286 | checkAllFormatsSet raises exactly when some node has an unset format, naming the first unset slot of the first such node, the `opName` of its class (e.g. "join" for an N:1 join) and its position counted over nodes only |
| ComprCheck.ConfigComprSpec | tools/mal2x/mal2morphstore/compr.py:256-270 | configCompr raises the unsupported-configuration error exactly for names outside the four configurations; any other error is a missing bit width |
| ComprCheck.RefilledSet | tools/mal2x/mal2morphstore/compr.py:127-244 | a refill whose every choice is a format leaves no slot unset |
| ComprCheck.ConfigComprSetsAllFormats | tools/mal2x/mal2morphstore/compr.py:256-286 | every configuration that succeeds leaves every format set, so checkAllFormatsSet passes on its result |
| ComprCheck.DynamicSet | tools/mal2x/mal2morphstore/compr.py:171-197 | AllDynamicVBP leaves no format unset |
| ComprCheck.StaticSet | tools/mal2x/mal2morphstore/compr.py:140-165 | a successful AllStaticVBP leaves no format unset |
| ComprCheck.ProjectStaticSet | tools/mal2x/mal2morphstore/compr.py:199-244 | a successful project-static configuration leaves no format unset, whichever value the scan compares with |
| ComprCheck.IntendedSetsAllFormats | tools/mal2x/mal2morphstore/compr.py:199-286 | the corrected project-static configuration, when it succeeds, also passes checkAllFormatsSet |
| ComprPipeline.InputsFormatted | tools/mal2x/mal2morphstore/compr.py:309-321 | every input column the Morph insertion renames has a format slot of its direction and role; the one without, the extents of a grouped sum, is exactly the one it skips |
| ComprPipeline.RefilledRenamable | tools/mal2x/mal2morphstore/compr.py:309-328 | a node refilled with formats that all have short names can be rewritten |
| ComprPipeline.StaticTargetListed | tools/mal2x/mal2morphstore/compr.py:160-164 | every format AllStaticVBP can choose has a short name |
| ComprPipeline.ProjectTargetListed | tools/mal2x/mal2morphstore/compr.py:237-244 | every format the project-static configuration can choose has a short name |
| ComprPipeline.UncomprListed | tools/mal2x/mal2morphstore/compr.py:127-135 | every element after AllUncompr can be rewritten |
| ComprPipeline.StaticListed | tools/mal2x/mal2morphstore/compr.py:140-165 | every element after AllStaticVBP can be rewritten |
| ComprPipeline.DynamicListed | tools/mal2x/mal2morphstore/compr.py:171-197 | every element after AllDynamicVBP can be rewritten |
| ComprPipeline.ProjectStaticListed | tools/mal2x/mal2morphstore/compr.py:199-244 | every element after the project-static configuration can be rewritten, whichever value the scan compares with |
| ComprPipeline.IntendedRewrites | tools/mal2x/mal2morphstore/compr.py:199-341 | the Morph insertion succeeds after the corrected project-static configuration, as it does after the one as written |
| ComprPipeline.ConfiguredRewrites | tools/mal2x/mal2morphstore/compr.py:256-341 | after any successful configuration of a program without Morphs, the Morph insertion succeeds when the table names every format the configuration can choose and every bit width is in 1..64 |
| ComprPipeline.ShortNamesCover | tools/mal2x/mal2morphstore/compr.py:101-115 | the short-name table names every format a configuration can choose |
| ComprPipeline.PipelineSucceeds | tools/mal2x/mal2morphstore/compr.py:256-341 | with bit widths in 1..64, a configuration that succeeds is followed by a check that passes and a Morph insertion that succeeds |
| Morphs.NewVarName | tools/mal2x/mal2morphstore/compr.py:294-297 | the new name is "name with dots as underscores", "__" and the format's short name; the lookup fails exactly for an unset format or one the table lacks |
| Morphs.NewNameSameColumn | tools/mal2x/mal2morphstore/compr.py:294-297 | one column gets the same new name in two formats exactly when their short names agree, so it is converted once per short name |
| Morphs.NewNameHasNoDot | tools/mal2x/mal2morphstore/compr.py:294-297 | a new name has no dot when the short name has none |
| Morphs.NewNames | tools/mal2x/mal2morphstore/compr.py:309-328 | a node has one new column name per column slot |
| Morphs.RenamedPrefix | tools/mal2x/mal2morphstore/compr.py:307-329 | the first k elements, each renamed |
| Morphs.MorphNotRenamable | tools/mal2x/mal2morphstore/compr.py:319-321 | a Morph has no inDataF for its inDataCol, so its input cannot be rewritten |
| Morphs.HasRenamedInput | tools/mal2x/mal2morphstore/compr.py:309-317 | every node kind but Morph has an input column the rewrite renames |
| Morphs.EmitSlotsOk | tools/mal2x/mal2morphstore/compr.py:309-328 | the loop over a node's columns succeeds exactly when every renamed slot has a set format with a short name |
| Morphs.EmitExtends | tools/mal2x/mal2morphstore/compr.py:322-327 | a Morph is emitted only for a new name, which then counts as seen |
| Morphs.EmitSlotsExtends | tools/mal2x/mal2morphstore/compr.py:309-328 | the loop over a node's columns adds only Morphs, each named after its input and format |
| Morphs.EmitSlotsSeen | tools/mal2x/mal2morphstore/compr.py:309-328 | after the loop every renamed slot's new name is among the seen names |
| Morphs.RenamedNode | tools/mal2x/mal2morphstore/compr.py:328 | a renamed node keeps its kind, and its slots are judged as the original's were |
| Morphs.EmitNodeOk | tools/mal2x/mal2morphstore/compr.py:307-328 | a node passes exactly when it is renamable, it is then not a Morph, and the errors are an unknown format or a missing format attribute |
| Morphs.FedByOutputs | tools/mal2x/mal2morphstore/compr.py:322-329 | a node appended after Morphs that output all its renamed inputs is fed |
| Morphs.NewNodeFed | tools/mal2x/mal2morphstore/compr.py:322-329 | each renamed input of a rewritten node is the output of a Morph before it |
| Morphs.NodeAppends | tools/mal2x/mal2morphstore/compr.py:307-329 | the rewrite of a node appends Morphs, then the renamed node |
| Morphs.NodeSkeleton | tools/mal2x/mal2morphstore/compr.py:307-329 | without its Morphs, the rewrite of a node appends just the renamed node |
| Morphs.NodeWellFed | tools/mal2x/mal2morphstore/compr.py:307-329 | the rewrite of a node keeps the running state's invariant |
| Morphs.LineFacts | tools/mal2x/mal2morphstore/compr.py:329 | a line is copied unchanged and keeps the invariant |
| Morphs.ElementStep | tools/mal2x/mal2morphstore/compr.py:307-329 | an element passes exactly when it is a line or a renamable node, and raises only the rewrite's errors |
| Morphs.MorphPrefixOk | tools/mal2x/mal2morphstore/compr.py:307-329 | the body rewrite of the first k elements succeeds exactly when each node among them is renamable |
| Morphs.MorphPrefixErr | tools/mal2x/mal2morphstore/compr.py:307-329 | the body rewrite raises only the rewrite's errors |
| Morphs.MorphPrefixWellFed | tools/mal2x/mal2morphstore/compr.py:307-329 | the body rewrite keeps the running state's invariant |
| Morphs.MorphPrefixSkeleton | tools/mal2x/mal2morphstore/compr.py:307-329 | without its Morphs, the body rewrite of the first k elements is those elements, renamed |
| Morphs.InsertMorphsOk | tools/mal2x/mal2morphstore/compr.py:293-341 | insertMorphs succeeds exactly when every renamed input of every node has a set format with a short name, and uncompr_f has one when there are result columns; it raises nothing else |
| Morphs.InsertMorphsBody | tools/mal2x/mal2morphstore/compr.py:307-341 | on success the program is the body, the comment line, then the result Morphs; the body without its Morphs is the old program with every renamed input given its new name |
| Morphs.InsertMorphsDistinct | tools/mal2x/mal2morphstore/compr.py:322-327 | the body's Morphs are each named after their input and format, no output name twice |
| Morphs.InsertMorphsFed | tools/mal2x/mal2morphstore/compr.py:307-329 | every renamed input of every node of the body is the output of a Morph before it |
| Morphs.ResultMorphsSpec | tools/mal2x/mal2morphstore/compr.py:333-337 | one Morph per result column, in order, converting it to uncompr_f under its new name |
| Morphs.InsertMorphsParts | tools/mal2x/mal2morphstore/compr.py:300-341 | a successful insertMorphs is the body, the comment line and the result Morphs |
| Morphs.InsertMorphsResults | tools/mal2x/mal2morphstore/compr.py:332-341 | the program ends with one Morph to uncompr_f per result column, in order and without deduplication, and the result columns become their outputs |
| Morphs.SkeletonShorter | tools/mal2x/mal2morphstore/compr.py:307-329 | dropping the Morphs never lengthens a program |
| Morphs.InsertMorphsGrows | tools/mal2x/mal2morphstore/compr.py:300-341 | the rewrite adds at least the comment line and one Morph per result column |
| Morphs.FirstNode | tools/mal2x/mal2morphstore/compr.py:307-329 | the first node at or after an index, or the program's end |
| Morphs.ErrorSticks | tools/mal2x/mal2morphstore/compr.py:307-329 | once the body rewrite fails it keeps that error |
| Morphs.MorphFails | tools/mal2x/mal2morphstore/compr.py:319-321 | a Morph cannot be rewritten again: the lookup of its inDataF raises |
| Morphs.FirstMorphFails | tools/mal2x/mal2morphstore/compr.py:307-329 | a program whose first node is a Morph fails the rewrite |
| Morphs.MorphLeadsIn | tools/mal2x/mal2morphstore/compr.py:322-337 | in a fed body, the comment and a tail of Morphs, a Morph comes at or before every node |
| Morphs.FirstNodeIsMorph | tools/mal2x/mal2morphstore/compr.py:300-341 | the first node of a successful rewrite's output is a Morph |
| Morphs.TailMorphs | tools/mal2x/mal2morphstore/compr.py:333-337 | the tail of a successful rewrite is all Morphs |
| Morphs.BodyError | tools/mal2x/mal2morphstore/compr.py:307-329 | when the body rewrite fails, insertMorphs raises its error |
| Morphs.SecondRunFails | tools/mal2x/mal2morphstore/compr.py:293-341 | insertMorphs is not idempotent: a second run never returns its input, and fails once the first output holds a node |
| Compr.FillNode | tools/mal2x/mal2morphstore/compr.py:131-135 | the loop over a node's format attributes sets each of them to the format |
| Compr.StaticFormatsLoop | tools/mal2x/mal2morphstore/compr.py:160-164 | the loop over a static-kind node's formats gives static_vbp_f at each described column's width, or raises as the function says |
| Compr.ReadsColumn | tools/mal2x/mal2morphstore/compr.py:228-231 | whether the node has an input column equal to the watched value |
| Compr.UncomprStep | tools/mal2x/mal2morphstore/compr.py:131-135 | one element gets uncompr_f in every format slot |
| Compr.StaticVBPStep | tools/mal2x/mal2morphstore/compr.py:150-165 | one element gets the static step's formats, or its error |
| Compr.DynamicVBPStep | tools/mal2x/mal2morphstore/compr.py:181-197 | one element gets the dynamic step's formats |
| Compr.ReadBetweenStep | tools/mal2x/mal2morphstore/compr.py:227-235 | one more scanned element adds its reading to the flags |
| Compr.ReadBetweenFlags | tools/mal2x/mal2morphstore/compr.py:227-235 | the scan over the rest of the program finds what the flags function says |
| Compr.ScanConsumers | tools/mal2x/mal2morphstore/compr.py:225-235 | the consumer scan returns whether some Project, and whether some other node, from the element on reads a column equal to the watched value |
| Compr.ProjectStaticStep | tools/mal2x/mal2morphstore/compr.py:212-244 | one element of the project-static configuration, as written, with the scan watching outDataF |
| Compr.ProjectNodeStep | tools/mal2x/mal2morphstore/compr.py:236-244 | the formats of one Project given the consumer flags, or the missing-width error |
| Compr.RenameSlots | tools/mal2x/mal2morphstore/compr.py:309-328 | the loop over a node's column attributes renames each input (but a grouped sum's extents) and emits a Morph for each new name, as the slot function says |
| Compr.RenamedSlotsStep | tools/mal2x/mal2morphstore/compr.py:328 | one more renamed slot extends the new names |
| Compr.RenamedNode | tools/mal2x/mal2morphstore/compr.py:328 | the loop's new names are the node's new names |
| Compr.RewriteElement | tools/mal2x/mal2morphstore/compr.py:308-329 | one element of the first loop: a node is preceded by its input Morphs and renamed; a line is copied |
| Compr.RewriteBody | tools/mal2x/mal2morphstore/compr.py:307-329 | the first loop gives the body rewrite's program and names, or its error |
| Compr.ResultMorphsLoop | tools/mal2x/mal2morphstore/compr.py:334-337 | the second loop gives the result Morphs and the new result names |
| Compr.FirstUnsetLoop | tools/mal2x/mal2morphstore/compr.py:278-280 | the inner scan finds the first unset format slot of a node |
| Compr.Query.constructor | tools/mal2x/mal2morphstore/compr.py:256 | the object holds the given translation result |
| Compr.Query.ConfigAllUncompr | tools/mal2x/mal2morphstore/compr.py:127-135 | the object's program becomes AllUncompr of the old one |
| Compr.Query.ConfigAllStaticVBP | tools/mal2x/mal2morphstore/compr.py:140-165 | the object ends as AllStaticVBP of the old program says, or with its error |
| Compr.Query.ConfigAllDynamicVBP | tools/mal2x/mal2morphstore/compr.py:171-197 | the object's program becomes AllDynamicVBP of the old one |
| Compr.Query.ConfigAllDynamicVBPProjectStaticVBP | tools/mal2x/mal2morphstore/compr.py:199-244 | the object ends as the project-static configuration, as written, says |
| Compr.Query.ConfigCompr | tools/mal2x/mal2morphstore/compr.py:256-270 | the object ends as configCompr of the named configuration says, or with the unsupported-configuration error |
| Compr.Query.CheckAllFormatsSet | tools/mal2x/mal2morphstore/compr.py:274-286 | the loop returns nothing exactly when checkAllFormatsSet passes, else its error: the first unset slot, the operator name of its node and the node's position |
| Compr.Query.InsertMorphs | tools/mal2x/mal2morphstore/compr.py:293-341 | the object ends as insertMorphs says: the new program and result columns, or the error |
| Compr.SameFromOn | tools/mal2x/mal2morphstore/compr.py:227 | the project-static step of an element reads the program only from that element on |

## Findings

| source | as written | input that shows it | evidently intended | confidence | as-written member | corrected member |
|---|---|---|---|---|---|---|
| tools/mal2x/mal2morphstore/compr.py:231 | `_configCompr_AllDynamicVBP_ProjectStaticVBP` looks for later nodes whose input column equals `el.outDataF`, which is "uncompr_f" at that point, so a Project's output format ignores its consumers unless some column is itself named "uncompr_f" (stated by `ComprDynamic.AsWrittenProjectOutputUncompressed`) | two Projects, the second reading the output of the first: the first Project's output stays uncompr_f | compare with `el.outDataCol`, so that the first Project's output gets static_vbp_f at its column's bit width | not executed; high: the flags are named `outDataNeededFor…` and the static branch reads the bit width of `el.outDataCol` | ComprDynamic.ProjectScanFinding | ComprDynamic.IntendedProjectOutput |

## Left out

- Command-line drivers and argument parsing (`tools/mal2x/mal2morphstore.py`, `tools/mal2morphstore/mal2morphstore.py`, `tools/mal2x/mal2dot.py`, and the `__main__` blocks of greedy.py, dbdict.py, qdict.py and csv2json.py) are not part of this model; they only wire files to the modelled functions.
- The C++ program output (`output.py`, `template.cpp`): not part of this model; operator renderings are modelled, the surrounding file is not.
- Graph drawing (`graph.py`, the mal2dot operator nodes, the older `mal2dot/visualize.py`) and the text form of a column node (`ColumnNode.__str__`): presentation only; the column classes, names, colours and styles are modelled.
- The greedy search loop, `evaluateFmtComb`, `saveFmtComb`, `loadFmtComb` and `saveRuntimes`: they run benchmarks and read or write files; the candidate rules and the combination count they use are modelled.
- `ssb_eval.py`, `csvutils.py`, `monetdb_create+load.py`, `ssb_to_json.py` and `query2json.py`: outside the modelled tools.
- File and directory I/O in dbdict.py, qdict.py and csv2json.py (opening, seeking, `struct` writes, `json.dump`, `_makeDirIf`): files are sequences of lines or rows, and the binary column file is the sequence of 64-bit values written to it.
- The qdict driver that runs the regular-expression substitution over a query file: each replacement function is modelled on the groups its match captured.
- Python's `int()` on underscores and non-ASCII digits, the Unicode meaning of `\d` and `\w`, and non-ASCII case mapping in `str.upper()`: only the ASCII behaviour is modelled.
- CSV quoting and escaping in `csv.DictReader`: a row is the list of its tab-separated fields.
- The vector parameters of the processing styles (`PS_INFOS`), the cascade block size (`CASC_BLOCKSIZE_LOG`) and the per-column maximum bit widths of the compression analysis are parameters of the model; `processingstyles.py` and `purposes.py` are inlined as the constants the modelled code reads.
- The `algo` base classes of formats.py: only the fields and methods formats.py itself defines are modelled. `getDisplayName` of a cascade is not modelled: its body is `raise NotImplemented()`, which calls the non-callable `NotImplemented` constant and so raises a TypeError whenever it is called.
- The analysis option `analyzeCardsAndBws=True`, which the configurations pass but the shown analysis does not accept: its result is the maximum-bit-width parameter.
- The `Morph` node kind, which the compression code uses but does not define: modelled as `Morph(outDataCol, inDataCol, outDataF)` without a C++ rendering; its `opName` is taken to be MorphStore's `morph`.
- The class attribute `opName` that the translator patches onto the group operators: the operator name is a parameter of their rendering.
- The state an object is left in when an exception is raised half-way through a loop that updates it in place: an operation that raises returns the error, and the state after it is not specified.
