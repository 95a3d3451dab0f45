# Runalyze file import and weight units, in Dafny

This project models two parts of Runalyze, a training log for runners and cyclists.

**The file importer service** (`FileImporter`) takes uploaded file names and does four things for each one:
1. It converts the file when needed:
   - a `.zip` archive is extracted, and each member is converted in turn and then removed;
   - a `.fit`, `.ttbin` or `.kmz` file is handed to the first converter that claims its extension;
   - any other file is kept as it is.
2. It parses every converted file with the parser mapped to its extension. The parser is given the file name, or else the file content. When the parser takes neither, `letParserParseFile` throws.
3. It wraps the parsed activity containers, or the `ParserException` thrown, into a `FileImportResult`.
4. It finalises each result:
   - it writes one log entry;
   - it moves a failed original into the directory for failed imports when one is configured, and removes it otherwise;
   - it removes a successful original;
   - it removes a converted file that differs from its original.

`importFiles` runs `importSingleFile` for each name and merges the collections. It then handles the merged collection a second time. The model proves that this second pass repeats every per-file finalisation, so a batch writes two of the importer's own log entries per result. This describes the source only when no failed result is quarantined: with a quarantine directory configured, the source's second pass throws at the first failed result whose quarantine path differs from its original (see "## Left out").

The model also proves what happens to the only member of a one-member archive when that member needs no conversion. The archive's loop removes the member right after converting it, and `importSingleFile` parses it only afterwards. So the member is parsed as a missing file: a content parser is handed `false`, and a parser by name finds no file.

**The weight class** (`Weight`) holds a weight in kilograms and a preferred unit: kg, pounds or stones.
- Its setters read a number, or a string in which a decimal comma counts as a decimal point.
- `setInPreferredUnit` converts from the preferred unit.
- Its getters convert into the units, using 2.204622 pounds and 0.157473 stones per kilogram.
- Its string methods pick the preferred unit in the same order: pounds, then stones, else kg. When no number of decimals is given, they use the static default, which starts at 1.

How the model is built:
- **The integers.** They are mathematical integers. Weights are `real`, so the unit round trips hold exactly.
- **The outside world.** The filesystem and the logger are one ordered log of effects: files created, removed and renamed, and log entries. The importer's set of files on disk always equals the starting set with that log replayed on it (`Replay`). Parsing reads this disk: a parser sees the content of the file it is given, or that the file is gone.
- **The collaborators.** Converters, the zip extractor, the parser mapping, the parsers and `file_get_contents` are function-valued fields. ActivityDataContainer is an opaque type.
- **Two layers.** The specification modules (`Conversion`, `Parsing`, `Finalisation`, `Importing`) define what each operation yields, as functions. The class `FileImporting.FileImporter` mirrors the PHP methods with loops and is proved against those functions.
- **Termination.** The zip recursion has no depth bound in the source. Its termination rests on a ghost measure, `nesting`, that decreases from every archive to each of its members (`WellNested`).

## Model

| member | source | states |
|---|---|---|
| Paths.BaseNameIsLastSegment | src/CoreBundle/Services/Import/FileImporter.php:261-264 | PATHINFO_BASENAME is the suffix of the path after its last slash: it holds no slash and is preceded by a slash or by nothing |
| Paths.ExtensionIsLastDotSuffix | src/CoreBundle/Services/Import/FileImporter.php:148 | PATHINFO_EXTENSION holds no dot or slash; when not empty, the base name ends with a dot and the extension; when empty, the base name has no dot or ends with one |
| Paths.JoinKeepsBaseName | src/CoreBundle/Services/Import/FileImporter.php:240 | `dir/name` has base name `name` |
| Conversion.FirstConverter | src/CoreBundle/Services/Import/FileImporter.php:162-168 | the chosen converter is the first in list order that claims the extension, and there is none exactly when no converter claims it |
| Conversion.AsList | src/CoreBundle/Services/Import/FileImporter.php:166 | a single converted name becomes a one-element list, and an array is kept as it is |
| Conversion.SupportedFileExtensions | src/CoreBundle/Services/Import/FileImporter.php:65-74 | the mapping's keys, then each converter's extension in order, then `zip` |
| Conversion.SupportedExtensionsCoverAll | src/CoreBundle/Services/Import/FileImporter.php:65-74 | an extension is supported if and only if it is a mapping key, a converter's extension or `zip` |
| Conversion.PlainFileConvertsToItself | src/CoreBundle/Services/Import/FileImporter.php:170 | a file that is neither an archive nor claimed by a converter converts to itself alone, with no effects |
| Conversion.ConverterOutputIsFinal | src/CoreBundle/Services/Import/FileImporter.php:162-167 | a claimed file converts to the first claiming converter's output, which is not converted again |
| Conversion.ArchiveConvertsMemberByMember | src/CoreBundle/Services/Import/FileImporter.php:150-159 | an archive's names are the in-order concatenation of its members' conversions; its effects are the extraction, then per member its conversion effects followed by its removal |
| Conversion.ConversionLogsNothing | src/CoreBundle/Services/Import/FileImporter.php:146-171 | conversion never writes to the log |
| Conversion.ConversionRemovesOnlyCreated | src/CoreBundle/Services/Import/FileImporter.php:150-159 | every file the conversion removes was created earlier by the same conversion |
| Conversion.NativeArchiveMemberIsRemovedBeforeParsing | src/CoreBundle/Services/Import/FileImporter.php:154-157 | the only member of a one-member archive, when it needs no conversion, is handed on by name but is already removed from disk when the conversion returns |
| Conversion.UpperCaseZipIsNoArchive | src/CoreBundle/Services/Import/FileImporter.php:150 | extensions are compared exactly: `upload.ZIP` is not an archive |
| Parsing.Containers | src/CoreBundle/Services/Import/FileImporter.php:192-199 | exactly the parser's reported number of containers, at indices 0 to n-1, in order |
| Parsing.ImportResultFor | src/CoreBundle/Services/Import/FileImporter.php:125-140 | the original name defaults to the file name; the result is failed exactly when parsing the file on the current disk threw; a failed result holds no containers and keeps the exception; a successful one holds the parsed containers |
| Parsing.UnmappedExtensionIsUnsupported | src/CoreBundle/Services/Import/FileImporter.php:181-186 | an extension mapped to no parser gives a failed result with UnsupportedFileException and no containers |
| Parsing.ParserWithoutInputFails | src/CoreBundle/Services/Import/FileImporter.php:214-220 | a parser that takes neither a file name nor content gives a failed result carrying that message |
| Parsing.FileNameTakesPrecedence | src/CoreBundle/Services/Import/FileImporter.php:214-217 | a parser that takes both a file name and content is given the file name, and reads that file itself |
| Parsing.ContentParserReadsTheDisk | src/CoreBundle/Services/Import/FileImporter.php:216-217 | a parser that takes only content is handed the file's bytes while the file exists, and `false` once it is gone |
| Parsing.ParseSeesOnlyItsFile | src/CoreBundle/Services/Import/FileImporter.php:179-223 | parsing depends on the disk only through the file parsed: two disks that agree on whether it exists give the same result |
| Parsing.ParsedContainersInOrder | src/CoreBundle/Services/Import/FileImporter.php:188-199 | a parser that returns normally yields a successful result with its containers in index order |
| Finalisation.FileNameForLog | src/CoreBundle/Services/Import/FileImporter.php:258-265 | the log name starts with the file's base name, and is exactly that base name if and only if the file is its own original; otherwise it ends with the original's base name and a closing parenthesis |
| Finalisation.FinaliseOnDisk | src/CoreBundle/Services/Import/FileImporter.php:232-252 | after finalising, a quarantined failure's original is in the quarantine directory and gone from its place; every other original is gone; a differing converted file is gone; no other file changes |
| Finalisation.QuarantineKeepsBaseName | src/CoreBundle/Services/Import/FileImporter.php:240 | a quarantined file keeps its base name |
| Finalisation.FinaliseLogsOnce | src/CoreBundle/Services/Import/FileImporter.php:232-247 | each result gets exactly one log entry, first among its effects; it is an error exactly when the result failed |
| Finalisation.HandleLogsOncePerResult | src/CoreBundle/Services/Import/FileImporter.php:225-230 | handling a collection writes one of the importer's own log entries per result |
| Finalisation.HandleAppend | src/CoreBundle/Services/Import/FileImporter.php:225-230 | handling two collections one after the other is handling their concatenation |
| Importing.ResultsFor | src/CoreBundle/Services/Import/FileImporter.php:100-102 | one result per converted name, in order, each parsed on the same disk and with the submitted name as original |
| Importing.SingleImport | src/CoreBundle/Services/Import/FileImporter.php:95-105 | importSingleFile returns one result per converted name, naming it, with the submitted name as original |
| Importing.BatchIsConcatenation | src/CoreBundle/Services/Import/FileImporter.php:80-89 | importFiles returns the in-order concatenation of the importSingleFile collections, as the source does when no failed result is quarantined |
| Importing.ResultsTraceBackToSubmittedNames | src/CoreBundle/Services/Import/FileImporter.php:80-105 | every result's original is a submitted name, and its file is one of that name's converted names |
| Importing.MergeLogsEveryResultOnce | src/CoreBundle/Services/Import/FileImporter.php:84-86 | the per-file passes write one log entry per merged result |
| Importing.BatchLogsEveryResultTwice | src/CoreBundle/Services/Import/FileImporter.php:80-118 | importFiles writes exactly two of the importer's own log entries per returned result, as the source does when no failed result is quarantined |
| Importing.FinalPassRepeatsPerFilePasses | src/CoreBundle/Services/Import/FileImporter.php:80-89 | the closing handleResults of importFiles repeats, in order, exactly the per-file finalisations, as the source does when no failed result is quarantined |
| Importing.ArchiveOfOneNativeFile | src/CoreBundle/Services/Import/FileImporter.php:95-105 | an archive holding one native file yields one result for it, with the archive as original; the member was removed before it is parsed, so the result is that of parsing it on a disk without it |
| FileImporting.FileImporter.constructor | src/CoreBundle/Services/Import/FileImporter.php:47-60 | the converters are FIT, TTbin, KMZ in that order; the zip converter is built for the supported extensions; the disk is the given file set and the effect log is empty; the nesting measure is the given one, so the importer is valid and its methods can be called |
| FileImporting.FileImporter.GetSupportedFileExtensions | src/CoreBundle/Services/Import/FileImporter.php:65-74 | equals the supported-extensions specification for the importer's mapping and converters |
| FileImporting.FileImporter.CreateFiles | src/CoreBundle/Services/Import/FileImporter.php:152 | a collaborator writing its output: one Created effect per name, in order |
| FileImporting.FileImporter.ConvertFileNameIfRequired | src/CoreBundle/Services/Import/FileImporter.php:146-171 | returns the converted names and appends the conversion effects of the specification |
| FileImporting.FileImporter.ConvertArchive | src/CoreBundle/Services/Import/FileImporter.php:150-159 | the zip branch, looped over the members: the archive's converted names and effects |
| FileImporting.FileImporter.ParseSingleFile | src/CoreBundle/Services/Import/FileImporter.php:179-200 | the containers read one by one, or the exception, as the parsing specification says for the current disk |
| FileImporting.FileImporter.GetFileImportResultFor | src/CoreBundle/Services/Import/FileImporter.php:125-140 | the import result of the specification |
| FileImporting.FileImporter.LogSingleFileImport | src/CoreBundle/Services/Import/FileImporter.php:232-252 | appends the finalisation effects of one result |
| FileImporting.FileImporter.LogFileImports | src/CoreBundle/Services/Import/FileImporter.php:225-230 | appends each result's finalisation, in collection order |
| FileImporting.FileImporter.HandleResults | src/CoreBundle/Services/Import/FileImporter.php:111-118 | returns the collection unchanged, after finalising it |
| FileImporting.FileImporter.ImportSingleFile | src/CoreBundle/Services/Import/FileImporter.php:95-105 | returns the results and appends the effects of the single-import specification, started on the disk as it was; the disk stays the replayed log |
| FileImporting.FileImporter.ImportFiles | src/CoreBundle/Services/Import/FileImporter.php:80-89 | returns the results and appends the effects of the batch specification, started on the disk as it was; each name is imported on the disk the earlier names left |
| Weights.ReplaceCommas | inc/core/Activity/Weight.php:85 | every comma becomes a dot, and every other character is kept in place |
| Weights.ReplaceCommasIdempotent | inc/core/Activity/Weight.php:85 | no comma is left; replacing again changes nothing; a string without a comma is kept as it is |
| Weights.DecimalValue | inc/core/Activity/Weight.php:85 | the float cast reads digits `a.b` as a + b / 10^\|b\| |
| Weights.CommaIsDecimalSeparator | inc/core/Activity/Weight.php:85 | a setter reads `a,b` as a + b / 10^\|b\|: a decimal comma is a decimal point |
| Weights.FractionBelowOne | inc/core/Activity/Weight.php:85 | the digits after the decimal point add a value in [0, 1) |
| Weights.NegativeValue | inc/core/Activity/Weight.php:85 | a leading minus negates the value |
| Weights.NonNumericIsZero | inc/core/Activity/Weight.php:85 | a string that does not start like a number reads as 0 |
| Weights.UnitRoundTrip | inc/core/Activity/Weight.php:95-110 | converting into a unit and back, or back and then into it, gives the value again |
| Weights.InUnitMonotone | inc/core/Activity/Weight.php:148-166 | every unit conversion keeps the order of weights, and only zero is zero |
| Weights.DecimalsRule | inc/core/Activity/Weight.php:186-215 | a given number of decimals is used whatever the default; `false` means the static default, which starts at 1; the value shown does not depend on the decimals |
| Weights.Weight.constructor | inc/core/Activity/Weight.php:54-58 | keeps the given unit and sets the weight as `set` does |
| Weights.Weight.Format | inc/core/Activity/Weight.php:67-69 | a fresh weight in the configured unit: its value in that unit, the effective decimals, and the unit when asked for |
| Weights.Weight.Set | inc/core/Activity/Weight.php:84-88 | changes only the weight field; kg() then returns the argument's numeric value; returns the object itself |
| Weights.Weight.SetPounds | inc/core/Activity/Weight.php:95-99 | changes only the weight field; pounds() then returns the argument's value; returns the object itself |
| Weights.Weight.SetStones | inc/core/Activity/Weight.php:106-110 | changes only the weight field; stones() then returns the argument's value; returns the object itself |
| Weights.Weight.SetInPreferredUnit | inc/core/Activity/Weight.php:116-126 | changes only the weight field; valueInPreferredUnit() then returns the argument's value; returns the object itself |
| Weights.Weight.Unit | inc/core/Activity/Weight.php:75-77 | the preferred unit |
| Weights.Weight.Kg | inc/core/Activity/Weight.php:148-150 | the stored kilograms, which pounds() and stones() convert |
| Weights.Weight.Pounds | inc/core/Activity/Weight.php:156-158 | the weight in pounds; dividing back gives the kilograms exactly |
| Weights.Weight.Stones | inc/core/Activity/Weight.php:164-166 | the weight in stones; dividing back gives the kilograms exactly |
| Weights.Weight.StringKG | inc/core/Activity/Weight.php:187-191 | the kilograms, the effective decimals, and KG when asked for |
| Weights.Weight.StringPounds | inc/core/Activity/Weight.php:199-203 | the pounds, which convert back to kg(); the effective decimals; POUNDS when asked for |
| Weights.Weight.StringStones | inc/core/Activity/Weight.php:211-215 | the stones, which convert back to kg(); the effective decimals; STONES when asked for |
| Weights.Weight.ValueInPreferredUnit | inc/core/Activity/Weight.php:171-179 | the weight converted into the preferred unit |
| Weights.Weight.String | inc/core/Activity/Weight.php:134-142 | the value in the preferred unit, the effective decimals, and the preferred unit when asked for |

## Left out

- The filesystem and the logger are not modelled as such. They are an ordered effect log; the logger's context array is reduced to the exception it holds.
- Created effects are a modelling choice. The zip converter and the file-type converters are taken to write each file they return; their code is not part of this model.
- Symfony's `Filesystem` is not modelled. In this model, renaming a missing file changes nothing. Symfony would throw an IOException there, and also when a rename or removal fails. With a quarantine directory configured this always happens once any result fails: the first handling pass, in importSingleFile, moves every failed original away, and the second pass, at line 88, then tries to rename that missing original again and throws at the first failed result whose quarantine path differs from its original. So the source's importFiles then throws instead of returning, and BatchIsConcatenation, FinalPassRepeatsPerFilePasses and BatchLogsEveryResultTwice describe the source only when no failed result is quarantined. A rename can also fail within one importSingleFile pass: when one submitted file yields two results, every result's finalisation disposes of the same original, so a later failed result with a quarantine directory configured tries to move an original that is already gone.
- Exceptions other than ParserException are not modelled. The source catches only ParserException, at line 137. Any other exception escapes importSingleFile and importFiles before that name's handleResults runs. It can come from a converter's `convertFile` (line 164) or from the zip converter's `convertFile` (line 152); then that name's results are not logged and the members extracted so far are not removed. It can also come from `parse()` (line 222) or from `getNumberOfActivities` or `getActivityDataContainer` (lines 193-196); then the archive's members were already removed at line 156, nothing is logged for that name, and the names earlier in the batch were already logged and disposed of by their own importSingleFile. Here parsers throw only ParserException, and converters and the zip converter always return.
- `setLogger` and the LoggerAware plumbing are not modelled. They do not affect results or files, but at lines 210-211 a LoggerAware parser is handed the importer's own logger and may write to it during `parse()`. Those entries are not modelled: the effect log holds only the importer's own entries, and every count of log entries here counts those.
- The constructor is given more than the source's. The source creates the KMZ converter, the parser mapping and the Filesystem itself; here the KMZ converter, the mapping, the zip converter's construction, the file contents and the starting file set are parameters.
- FileImportResult and FileImportResultCollection are not part of this model. A result is taken to be failed exactly when it holds an exception. `add` is taken to append, and `merge` to concatenate.
- UnsupportedFileException is taken to be a ParserException, as its catch at line 137 requires.
- Parsers are functions of the file name and of what the disk holds under it: the file's bytes, or nothing. A parser that reads other files is not modelled. The bytes of a name are fixed for the whole run (`contentOf: string -> Bytes`), so a zip member or a converter output that overwrites an existing file is read with the old file's bytes; ParseSeesOnlyItsFile rests on this.
- The TODO about merging HRM and GPX files has no behaviour in the source, so nothing models it.
- PHP's loose `==` and `!=` on strings are modelled as string equality. They differ only for two numeric strings.
- `pathinfo` is modelled as the text after the last slash, and the text after the last dot of that. Trailing slashes and platform-specific separators are not modelled.
- Paths.JoinKeepsBaseName: requires the joined name to hold no slash, which is what PATHINFO_BASENAME returns.
- The float arithmetic is not modelled. Weights are real numbers, so rounding and precision are absent, and the round trips hold exactly.
- PHP's float-to-string conversion is not modelled. `str_replace` on a number converts it to a string first; here a number is read back unchanged.
- The `(float)` cast is modelled on a leading sign, digits, and an optional dot with digits. Leading whitespace, exponents, `INF` and `NAN` are not modelled.
- number_format is not modelled. The string methods return the value, the number of decimals and the unit as a record, and the `&nbsp;` separator is not modelled.
- The unit text is not modelled. The WeightUnit class is not part of this model; `unit()` returns the unit itself.
- `Configuration::General()->weightUnit()` is not modelled. The global default unit is a parameter, and the constructor's defaults (weight 0, configured unit) are not modelled.
- The static `$DefaultDecimals` is a parameter of the string methods, and `InitialDefaultDecimals` is its initial value. Assignments to it elsewhere are not modelled.
- `$decimals` is modelled only as `false` or a number. The other PHP values that could be passed are not modelled.
