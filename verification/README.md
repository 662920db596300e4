# MCP template server tools, modelled in Dafny

This project models the three tools of the MCP template server and the
records they exchange:

- the **calculator** (`src/tools/calculator.py`) checks the operation, the
  numbers and the precision. It then adds, subtracts, multiplies, divides,
  raises to a power or takes the remainder, and formats the result;
- the **file manager** (`src/tools/file_manager.py`) confines every path to
  the safe directories. Writes and deletes may only touch the data
  directory, and blocked or unlisted extensions are refused. It then reads,
  writes, lists, checks or deletes, and turns every failure of the operation
  itself into a result whose success flag is false;
- the **search tool** (`src/tools/search.py`) checks the query parameters,
  asks the web-search client (`src/api/web_search.py`) for answers and
  turns them into result records;
- the **input and output records** (`src/models.py`) with their field
  constraints and validators.

Modules, one per file:

| module | contents |
|---|---|
| `Outcomes` | Python's exception kinds, and `Result`/`Outcome` for "returns or raises". |
| `Text` | The parts of `str` the tools rely on: whitespace, `lower()`, the `in` test, string order and `str(int)`. |
| `Config` | The constants of `src/config.py`. The installation directory is a parameter `base`. |
| `Models` | The enums and the records. Each record constructor returns `Valid(record)` or `Invalid(field errors)`. |
| `Calculator` | The `CalculatorTool` class and its engine. |
| `Paths` | Lexical `pathlib` for POSIX paths: resolution, rendering, suffix, ancestry. |
| `FileSystem` | A class whose state is a map from paths to files and directories. It has `mkdir(parents=True)`, `write`, `unlink` and `rmdir`, each proved to keep the tree shaped. |
| `FileManager` | The sandbox check, one specification function per operation, and the `FileManagerTool` class that carries them out on a `FileSystem`. |
| `WebSearch` | The stub client `WebSearchAPI`. |
| `Search` | The `SearchTool` class. |

Numbers are `Float = Finite(real) | NaN | Infinity`, so the NaN and
infinity checks keep their order. Decimal arithmetic is exact.

The following are parameters of the model:

- powers with a non-integral exponent;
- float formatting with a positive precision;
- the codec registry;
- the process's working directory.

Where the code and the design description of the project disagree, the model
follows the code:

- **Relative paths.** The description says relative paths are resolved
  against the data directory. The code resolves them against the working
  directory: `Path(path).resolve()` is always absolute, so the branch at
  `src/tools/file_manager.py:160-161` never runs.
- **`..` check.** The `..` check at `src/tools/file_manager.py:156` runs on
  the resolved path, where no `..` component is left. It therefore never
  sees a climb: only the safe-directory check keeps `../x` out; see
  `FileManager.ClimbingOutIsOutsideSafe`. Being a substring test, it still
  refuses any component that contains `..`, such as `notes..txt`.
- **Zero divisor.** The description says the input record rejects a zero
  divisor for both divide and modulo. `CalculatorInput` rejects it only for
  divide; the engine rejects both.
- **Write then read.** The description says a read returns exactly what was
  written. `read_text` translates newlines, so the round trip holds up to
  that translation, and exactly for text without `\r`.
- **Enum members in messages.** The description quotes the arity error
  with the operation's value ("Operation subtract requires ..."). The code
  formats the member with an f-string. For a `str`-valued enum under
  Python 3.12 that gives the class and member name, so the message reads
  "Operation OperationType.SUBTRACT requires exactly 2 numbers", and the
  same holds for "Unsupported operation: ...". The model uses
  `Models.OperationName` for this text.
- **`success` flag.** `FileManagerResult` declares no `success` field,
  although every construction site passes one and the tests read it. The
  model keeps the flag as passed.

## Model

| member | source | states |
|---|---|---|
| Calculator.Values | src/tools/calculator.py:160-179 | The decimal values the arithmetic works on, one per input number, in order. |
| Calculator.FirstNonFinite | src/tools/calculator.py:130-134 | The first number that is NaN or infinite; every number before it is finite. |
| Calculator.CheckNumbers | src/tools/calculator.py:121-150 | The numbers pass exactly when they are accepted: 1 to 10 of them, all finite, exactly 2 for a binary operation, and a nonzero divisor for divide and modulo. |
| Calculator.ValidateNumbers | src/tools/calculator.py:121-150 | The checks in source order (empty, too many, NaN or infinite, arity, zero divisor) raise what `CheckNumbers` specifies. |
| Calculator.EngineStricterThanInputModel | src/models.py:41-60 | Numbers the engine accepts also satisfy `CalculatorInput`'s count bounds and `validate_numbers`. |
| Calculator.ModuloByZeroOnlyEngineRejects | src/tools/calculator.py:147-150 | A zero modulo divisor passes the input record but is refused by the engine with "Cannot calculate modulo by zero". |
| Calculator.CheckPrecision | src/tools/calculator.py:152-158 | Passes exactly for 0..15 (`CALCULATOR_MAX_PRECISION`), and otherwise raises the range error. |
| Calculator.AddNumbers | src/tools/calculator.py:160-165 | The accumulating loop returns the sum of the values. |
| Calculator.MultiplyNumbers | src/tools/calculator.py:174-179 | The accumulating loop returns the product of the values. |
| Calculator.SumAppend | src/tools/calculator.py:160-165 | The sum of a concatenation is the sum of the parts, so the loop's running total is a prefix sum. |
| Calculator.ProductAppend | src/tools/calculator.py:174-179 | The product of a concatenation is the product of the parts. |
| Calculator.ProductZero | src/tools/calculator.py:174-179 | A product is zero exactly when one of its factors is. |
| Calculator.MultiplyExample | src/tools/calculator.py:174-179 | 2 * 3 * 4 = 24. |
| Calculator.Difference | src/tools/calculator.py:167-172 | Fails exactly for a count other than 2; otherwise the result plus the second number is the first. |
| Calculator.Quotient | src/tools/calculator.py:181-195 | Arity error, then zero-divisor error; otherwise the result times the divisor is the dividend. |
| Calculator.Trunc | src/tools/calculator.py:236 | `int(x)` truncates toward zero: between x and zero, less than one away from x. |
| Calculator.Remainder | src/tools/calculator.py:217-231 | Decimal `%`: arity error, then zero-divisor error. Otherwise x = trunc(x / y) * y + r, with abs(r) < abs(y) and r zero or carrying the dividend's sign. |
| Calculator.ModuloBounds | src/tools/calculator.py:229 | The remainder after a truncated quotient lies strictly between -abs(y) and abs(y) and has the dividend's sign. |
| Calculator.Exponentiate | src/tools/calculator.py:197-215 | Arity error; zero to a negative power is refused; 0 ** 0 and a negative base with a fractional exponent fail as invalid decimal operations. An integral exponent gives the repeated product or its reciprocal; 0 to a positive fraction is 0. |
| Calculator.EvaluateAccepted | src/tools/calculator.py:95-98 | Once the numbers are accepted, only power can fail, and it fails exactly for 0 to a non-positive power or a negative base with a fractional exponent. |
| Calculator.FormatResult | src/tools/calculator.py:233-240 | With precision 0 the text reads back as the truncated integer; otherwise it is the fixed-point rendering. |
| Calculator.FormatExamples | src/tools/calculator.py:235-236 | 7/3 formats as "2" and 24 as "24" at precision 0. |
| Calculator.CalculatorTool.constructor | src/tools/calculator.py:35-45 | Starts uninitialised, with all six operations registered. |
| Calculator.CalculatorTool.Initialize | src/tools/calculator.py:47-55 | Leaves the tool initialised; a second call changes nothing. |
| Calculator.CalculatorTool.ValidateOperation | src/tools/calculator.py:116-119 | Passes exactly for a registered operation, and otherwise raises "Unsupported operation: OperationType.X". |
| Calculator.CalculatorTool.Calculate | src/tools/calculator.py:67-114 | Initialises, then checks operation, numbers and precision in that order, raising the first error found. Otherwise returns the engine's value, the operation, the input numbers and the formatted text, or raises the engine's error. |
| Models.ParseOperationInverse | src/models.py:20-26 | The operation enum's values parse back to their members and nothing else parses. |
| Models.ParseFileOperationInverse | src/models.py:29-34 | The file operation enum's values parse back to their members and nothing else parses. |
| Models.MentionsAppend | src/models.py:41-44 | A field is reported by a combined error list exactly when one of the parts reports it. |
| Models.MentionsAllAbout | src/models.py:41-44 | A list of errors all about field f reports g exactly when it is non-empty and g is f. |
| Models.MentionsOfThree | src/models.py:41-44 | The errors of three per-field checks report a field exactly when that field's check failed. |
| Models.OperationName | src/models.py:20-27 | `f"{op}"` of an enum member is "OperationType." followed by the member's name. |
| Models.OperationNameInjective | src/models.py:20-27 | Different members format differently, and no member formats as any member's value. |
| Models.ValidateInputNumbers | src/models.py:46-60 | Fails exactly when a binary operation has other than 2 numbers, raising "Operation OperationType.X requires exactly 2 numbers", or a divide has a zero second number, raising "Cannot divide by zero". A pass returns the list unchanged. |
| Models.ModelZeroDivisorAsymmetry | src/models.py:56-58 | A zero divisor is refused for divide but accepted for modulo. |
| Models.OperationFieldErrors | src/models.py:42 | Errors about the `operation` field of either enum, present exactly when the text names no member. |
| Models.NumbersFieldErrors | src/models.py:43-60 | Errors about `numbers`, empty exactly when there are 1 to 10 numbers and `validate_numbers` accepts them. |
| Models.PrecisionFieldErrors | src/models.py:44 | Errors about `precision`, empty exactly for 0..15. |
| Models.BuildCalculatorInput | src/models.py:41-60 | Each field is reported exactly when its own constraint fails. The record is valid exactly when all hold, and then holds the parsed operation, the numbers and the precision. |
| Models.ValidatePath | src/models.py:81-85 | Accepts exactly the paths without `..` that do not start with "/", unchanged. |
| Models.ValidateContent | src/models.py:87-91 | Fails exactly for a write without content. |
| Models.PathFieldErrors | src/models.py:77-85 | Errors about `path`, empty exactly for 1 to 500 characters that `validate_path` accepts. |
| Models.ContentFieldErrors | src/models.py:78-91 | Errors about `content`, empty exactly when it is at most 1 000 000 characters and present for a write. |
| Models.BuildFileManagerInput | src/models.py:75-91 | Each field is reported exactly when its own constraint fails. The record is valid exactly when all hold, and then holds the inputs unchanged. |
| Models.ValidateDomains | src/models.py:124-129 | Passes exactly when every domain is non-empty and contains a dot, returning them lower-cased; otherwise it names the first offending domain. |
| Models.LowerKeepsDomainShape | src/models.py:127-129 | Lower-casing keeps a domain acceptable. |
| Models.ValidateDomainsIdempotent | src/models.py:124-129 | Validating the validated domains again gives the same list. |
| Models.BuildSearchQuery | src/models.py:118-129 | Valid exactly when the text has 1 to 1000 characters, there are at most 10 acceptable domains, the limit is 1..100 and the language has 2 to 5 characters; the domains are then stored lower-cased. |
| Models.BuildFileInfo | src/models.py:94-101 | Valid exactly when the size is not negative. |
| Models.BuildSearchResult | src/models.py:132-137 | Valid exactly when a given relevance score lies in [0, 1]. |
| Models.BuildServerInfo | src/models.py:166-174 | Valid exactly for a non-negative tool count and uptime, each refused field named in the errors. Every field, the status included, is stored as given. |
| Models.BuildHealthCheck | src/models.py:177-181 | Valid exactly for a non-negative response time. The status and the checks are stored as given. |
| Models.DefaultsAccepted | src/models.py:40-181 | Records built with their defaulted fields left at the defaults (precision 2, encoding "utf-8", limit 10, language "en", status "running" and "healthy") are valid and hold those values. |
| Text.LowerChar | src/models.py:129 | `lower()` on one character: ASCII capitals and the Kelvin sign map down, everything else stays, and no result is a capital. |
| Text.Lower | src/tools/file_manager.py:200 | `lower()` on a string, character by character. |
| Text.LowerIdempotent | src/models.py:129 | Lower-casing twice is lower-casing once. |
| Text.DotDotConcat | src/tools/file_manager.py:156 | `..` occurs in a concatenation exactly when it occurs in a part or straddles the seam. |
| Text.SubstringOfConcat | src/api/web_search.py:54-68 | A string occurs in any string that embeds it. |
| Text.StrLeTotal | src/tools/file_manager.py:290 | String order is total, so sorting by name is well defined. |
| Text.IntToStringRoundTrip | src/tools/calculator.py:236 | `str(i)` reads back as i. |
| Paths.Segments | src/tools/file_manager.py:151 | Splitting on "/" gives at least one segment, none with a slash. |
| Paths.Parts | src/tools/file_manager.py:151 | `Path(text)` keeps only non-empty segments other than `.`. |
| Paths.Walk | src/tools/file_manager.py:151 | Lexical resolution yields a canonical path and introduces no NUL. |
| Paths.WalkForward | src/tools/file_manager.py:151 | Without `..`, resolution appends the parts to the start directory. |
| Paths.Resolve | src/tools/file_manager.py:150-153 | `resolve()` fails exactly when a component holds NUL; otherwise it gives a canonical absolute path. |
| Paths.RelativeStaysBelow | src/tools/file_manager.py:151 | A relative path without `..` resolves below the working directory. |
| Paths.Render | src/tools/file_manager.py:156 | `str(path)` starts with "/". |
| Paths.RenderParts_RoundTrip | src/tools/file_manager.py:151-156 | Parsing the rendering of a canonical path gives its components back. |
| Paths.ResolveIdempotent | src/tools/file_manager.py:151 | Resolving the rendering of a resolved path gives the same path. |
| Paths.RenderDotDot | src/tools/file_manager.py:156 | The rendering contains `..` exactly when one of the components does. |
| Paths.LastDot | src/tools/file_manager.py:173 | The position of the last dot of a name, or -1. |
| Paths.Suffix | src/tools/file_manager.py:173 | `path.suffix` is non-empty exactly when the name's last dot is neither its first nor its last character. It is then the dot-led tail with no further dot. |
| FileSystem.AncestorsAreDirs | src/tools/file_manager.py:259 | In a tree-shaped file system every ancestor of an entry is a directory. |
| FileSystem.MkdirParents | src/tools/file_manager.py:71-72 | `mkdir(parents=True, exist_ok=True)` keeps the tree shaped. On success the target is a directory, and every directory stays one. |
| FileSystem.AddDirsTree | src/tools/file_manager.py:259 | Creating the missing ancestors top down keeps the tree shaped. |
| FileSystem.BlockedByFile | src/tools/file_manager.py:259 | The first regular file on the way stops `mkdir`, changing nothing; it is the target itself or a proper ancestor. |
| FileSystem.FileSystem.MakeDirs | src/tools/file_manager.py:259 | The loop creates the missing directories top down, or fails unchanged with "File exists" / "Not a directory"; the result equals `MkdirParents`. |
| FileSystem.FileSystem.WriteBytes | src/tools/file_manager.py:262 | Writing fails on a directory, a missing parent or a file parent; otherwise it sets exactly that entry to the bytes. |
| FileSystem.FileSystem.Unlink | src/tools/file_manager.py:329-331 | Removes exactly a regular file. A missing entry or a directory fails, unchanged. |
| FileSystem.FileSystem.Rmdir | src/tools/file_manager.py:332-337 | Removes exactly an empty non-root directory. Any other entry fails, unchanged, with the matching OS error. |
| FileManager.Latin1 | src/tools/file_manager.py:237 | The latin-1 fallback decodes each byte to the character with that code. |
| FileManager.TranslateNewlines | src/tools/file_manager.py:223 | Text-mode reading leaves no `\r` and never lengthens the text. |
| FileManager.TranslateNewlinesIdentity | src/tools/file_manager.py:223 | Text without `\r` reads back unchanged. |
| FileManager.ConfiguredExtensions | src/tools/file_manager.py:198-207 | With the configured lists, an extension is allowed exactly when its lower-case form is listed. |
| FileManager.CheckPath | src/tools/file_manager.py:144-176 | A blank path raises "Path cannot be empty", and a NUL byte "Invalid path format: embedded null byte". Otherwise the resolved path goes through `CheckResolved`. A path is accepted exactly when it is not blank, resolves, and its resolution is admissible; the accepted path is that resolution. |
| FileManager.CheckResolved | src/tools/file_manager.py:155-176 | The checks after resolution, each with its own error, in source order: a component containing `..` raises the traversal error, a path outside the safe directories PermissionError, a write or delete outside the write paths "Write access denied", a refused suffix "File extension not allowed". What passes all four is returned unchanged. |
| FileManager.AssetsNeverWritable | src/tools/file_manager.py:167-170 | With the configured sandbox, a path accepted for write or delete lies in the data directory and never in the assets directory. |
| FileManager.CheckPathIdempotent | src/tools/file_manager.py:144-176 | Checking the rendering of an accepted path accepts the same path again. |
| FileManager.ClimbingOutIsOutsideSafe | src/tools/file_manager.py:150-165 | From the data directory, "../name" for any sibling other than data and assets is refused as outside the safe directories, not as traversal. |
| FileManager.BesideIsOutsideSafe | src/tools/file_manager.py:163-165 | A sibling of the safe directories fails the safe-directory check. |
| FileManager.PartsOfClimb | src/tools/file_manager.py:151 | "../name" parses to the components `..` and name. |
| FileManager.ResolveClimb | src/tools/file_manager.py:151 | From the data directory, "../name" resolves to the sibling name of data. |
| FileManager.NoDotDotBeside | src/tools/file_manager.py:156 | The rendering of such a sibling neither contains nor starts with `..`. |
| FileManager.InfoOf | src/tools/file_manager.py:353-366 | The entry's name, rendered path and kind. A file's size is its byte count, and sizes are never negative. |
| FileManager.ReadSpec | src/tools/file_manager.py:209-246 | Succeeds exactly for an existing regular file within the size limit whose codec is known. A missing path, a directory and an oversized file (ValueError "File too large") fail in that order, each with its own message. Decodable bytes give their decoded text with newlines translated and "Successfully read file (N characters)". Undecodable bytes give the latin-1 text, translated, and "Read with fallback encoding (N characters)". The text never holds `\r`. |
| FileSystem.DirTargetMakesNothing | src/tools/file_manager.py:258-262 | When the target is a directory after its parents are made, the parents were all there and `mkdir` changed nothing. |
| FileManager.WriteSpec | src/tools/file_manager.py:248-273 | Succeeds exactly when there is content, it encodes within the size limit, no file blocks the parent, and the target is no directory. The new state is the old with the parents created and the file set; it stays tree-shaped. Every failure leaves the state unchanged. |
| FileManager.WriteKeepsTree | src/tools/file_manager.py:262 | Writing a file into an existing directory keeps the tree shaped. |
| FileManager.ReorderedEnumeration | src/tools/file_manager.py:285-290 | Any permutation of a complete enumeration is still one, so sorting keeps the listing complete. |
| FileManager.IterDir | src/tools/file_manager.py:285-287 | The loop yields one record per child of the directory, each once. |
| FileManager.ExistsSpec | src/tools/file_manager.py:305-321 | Always succeeds, and carries file information exactly when the path exists. |
| FileManager.DeleteSpec | src/tools/file_manager.py:323-351 | Succeeds exactly for a file or an empty non-root directory, removing only that entry; otherwise nothing changes. A missing path and a non-empty directory fail with their messages. |
| FileManager.RemoveKeepsTree | src/tools/file_manager.py:329-337 | Removing a file or an empty directory keeps the tree shaped. |
| FileManager.Wrap | src/tools/file_manager.py:131-142 | A failed operation becomes an unsuccessful result that echoes the request path with "Operation failed: " and the error text. |
| FileManager.EnsureDirs | src/tools/file_manager.py:70-72 | Creating the safe directories in order keeps the tree shaped; on success each one is a directory. |
| FileManager.EnsureDirsSnoc | src/tools/file_manager.py:71-72 | One more directory is one more `mkdir` after the previous ones, unless they already failed. |
| FileManager.EnsureDirsStops | src/tools/file_manager.py:71-72 | The first failing `mkdir` ends initialisation. |
| FileManager.WriteThenRead | src/tools/file_manager.py:223-262 | After a successful write, reading with a round-tripping codec gives the content up to newline translation; every other entry is unchanged. |
| FileManager.MkdirKeepsEntries | src/tools/file_manager.py:259 | Creating parents keeps every existing entry as it was. |
| FileManager.WriteThenReadExact | src/tools/file_manager.py:223-262 | Without `\r`, reading gives the written content exactly. |
| FileManager.ListingsAgree | src/tools/file_manager.py:275-303 | Two listings of the same directory have the same entries. |
| FileManager.DeleteThenExists | src/tools/file_manager.py:305-351 | After a successful delete the path no longer exists; before it, it did. |
| FileManager.InsertByName | src/tools/file_manager.py:290 | Inserting into a list sorted by name keeps it sorted and adds exactly that element. |
| FileManager.SortByName | src/tools/file_manager.py:290 | `files.sort(key=name)` returns a permutation sorted by name. |
| FileManager.MakeEach | src/tools/file_manager.py:71-72 | The loop over the safe directories has the effect `EnsureDirs` specifies. |
| FileManager.FileManagerTool.constructor | src/tools/file_manager.py:49-63 | Uninitialised, with the configured safe directories, write paths and extension lists. |
| FileManager.FileManagerTool.Initialize | src/tools/file_manager.py:65-76 | A second call changes nothing. A first call creates the safe directories as `EnsureDirs` says, and records success. |
| FileManager.FileManagerTool.UnderAny | src/tools/file_manager.py:178-196 | The loop finds a containing directory exactly when there is one. |
| FileManager.FileManagerTool.ValidateAndNormalizePath | src/tools/file_manager.py:144-176 | Raises or returns exactly what `CheckPath` specifies. |
| FileManager.FileManagerTool.ReadFile | src/tools/file_manager.py:209-246 | Returns what `ReadSpec` specifies. |
| FileManager.FileManagerTool.WriteFile | src/tools/file_manager.py:248-273 | Result and new state are those `WriteSpec` specifies. |
| FileManager.FileManagerTool.ListDirectory | src/tools/file_manager.py:275-303 | A missing path or a non-directory fails with its message; otherwise the listing is complete and sorted by name. |
| FileManager.FileManagerTool.CheckExists | src/tools/file_manager.py:305-321 | Returns what `ExistsSpec` specifies. |
| FileManager.FileManagerTool.DeleteFile | src/tools/file_manager.py:323-351 | Result and new state are those `DeleteSpec` specifies. |
| FileManager.FileManagerTool.ExecuteOperation | src/tools/file_manager.py:101-142 | Initialises first, then validates the path; errors from either are raised. Otherwise the operation runs on the initialised state and its failure becomes an unsuccessful result. |
| FileManager.ChildIn | src/tools/file_manager.py:285 | Each child name belongs to an entry of the directory. |
| Search.ValidDomainCharacterised | src/tools/search.py:150-164 | A domain is valid exactly when it contains a dot and every lower-cased character is a letter, digit, dot or hyphen; its lower-cased form is then valid too. |
| Search.FirstInvalidDomain | src/tools/search.py:146-148 | The first invalid domain, or none when all are valid. |
| Search.ValidateSearchParams | src/tools/search.py:115-148 | Passes exactly for acceptable parameters. Blank text is refused first, then text over 1000 characters; every error is a ValueError. |
| Search.AcceptedParamsMakeQuery | src/tools/search.py:115-148 | Parameters the tool accepts form a valid `SearchQuery` exactly when the language has at most 5 characters. |
| Search.Convert | src/tools/search.py:194-206 | One record per answer, in order, missing fields defaulted; it fails exactly when a score lies outside [0, 1]. |
| Search.SearchSpec | src/tools/search.py:63-113 | A response echoes the query and counts its results. |
| Search.SearchFailsOnlyOnParams | src/tools/search.py:85-113 | A search fails exactly when its parameters are refused, and with the validation error. |
| Search.DefaultSearchSucceeds | src/tools/search.py:64-68 | A search with the default domains, limit (`SEARCH_DEFAULT_LIMIT`, 10) and language succeeds for non-blank text of at most 1000 characters, with at most 10 results. |
| Search.CannedScoresInRange | src/api/web_search.py:52-85 | Every canned score lies in [0, 1]. |
| Search.ResultsAreRecords | src/tools/search.py:178-206 | The results are the client's answers converted one by one. |
| Search.SearchResponseBounds | src/tools/search.py:98-109 | At most `limit` and at most 3 results, and `total_found` is their number. |
| Search.SearchResponseTitles | src/api/web_search.py:52-74 | Every result title mentions the query. |
| Search.SearchResponseRanked | src/tools/search.py:178-206 | Results come with scores, best first. |
| Search.SearchResponseDomains | src/api/web_search.py:76-82 | With filters, every result's domain contains one of them. |
| Search.SearchTool.constructor | src/tools/search.py:34-39 | Uninitialised, with a fresh uninitialised client. |
| Search.SearchTool.Initialize | src/tools/search.py:41-52 | Initialises the tool and its client; a second call changes nothing. |
| Search.SearchTool.PerformSearch | src/tools/search.py:178-206 | Converts the client's answers as `Convert` specifies. |
| Search.SearchTool.Search | src/tools/search.py:63-113 | Initialises, and returns or raises what `SearchSpec` specifies. |
| Search.BuildRecords | src/tools/search.py:195-206 | The conversion loop computes `Convert`. |
| Search.ConvertAppend | src/tools/search.py:196-204 | One more answer appends its record, or fails with its validation error. |
| Search.ConvertStops | src/tools/search.py:196-204 | The first failing answer decides the outcome. |
| WebSearch.CannedResults | src/api/web_search.py:52-74 | Three answers, each with a domain and a score, best first. |
| WebSearch.Matching | src/api/web_search.py:77-82 | The filter keeps at most as many results as it is given, each one of them; the order is fixed by `MatchingAppend`. |
| WebSearch.MatchingExactly | src/api/web_search.py:77-82 | The filter keeps exactly the results whose domain contains a filter string. |
| WebSearch.MatchingSound | src/api/web_search.py:80 | Everything kept matches. |
| WebSearch.MatchingComplete | src/api/web_search.py:80-81 | Everything that matches is kept. |
| WebSearch.MatchingKeepsRanking | src/api/web_search.py:77-82 | Filtering keeps results best first. |
| WebSearch.MatchingAppend | src/api/web_search.py:79-81 | The loop's step: one more result is appended exactly when it matches. |
| WebSearch.Head | src/api/web_search.py:85 | `s[:limit]` is a prefix. For a non-negative limit its length is min(limit, len); a negative limit drops that many from the end. |
| WebSearch.HeadKeepsRanking | src/api/web_search.py:85 | Slicing keeps results best first. |
| WebSearch.Answers | src/api/web_search.py:33-85 | At most 3 answers, at most `limit` for a non-negative limit, each with a domain and a score. |
| WebSearch.UnfilteredIsCanned | src/api/web_search.py:77-85 | Without filters the answers are the first `limit` canned results. |
| WebSearch.FilteredMatch | src/api/web_search.py:77-82 | With filters every answer matches one. |
| WebSearch.SearchRanked | src/api/web_search.py:52-85 | Answers come best first. |
| WebSearch.TitlesMentionQuery | src/api/web_search.py:54-68 | Every answer's title contains the query. |
| WebSearch.WebSearchApi.constructor | src/api/web_search.py:10-12 | Keeps the key and starts uninitialised. |
| WebSearch.WebSearchApi.Initialize | src/api/web_search.py:14-22 | Leaves the client initialised; a second call changes nothing. |
| WebSearch.WebSearchApi.FilterByDomains | src/api/web_search.py:77-82 | The filtering loop computes `Matching`. |
| WebSearch.WebSearchApi.Search | src/api/web_search.py:33-85 | Initialises and returns `Answers`. |
| WebSearch.AnyDomainIn | src/api/web_search.py:80 | `any(domain in d for domain in domains)`, both directions. |

## Left out

- Decimal context: the 20-digit context set by `initialize` (`src/tools/calculator.py:53`) and its rounding are not modelled. Arithmetic is exact, so division and long products do not round. The context's `InvalidOperation` path in `_modulo` ("Modulo operation failed", `src/tools/calculator.py:228-231`) is not modelled either: exact `%` with a nonzero divisor never raises it.
- Calculator.Exponentiate: a positive base with a non-integral exponent is the parameter `fracPow`. The decimal overflow path is not modelled: a power whose result exceeds the context's exponent limit (such as `10 ** 1e7`) raises `decimal.Overflow`, which is no `OverflowError`, so the handler at `src/tools/calculator.py:214` lets it through unwrapped rather than turning it into "Power operation failed: ...".
- Calculator.FormatResult: formatting with a positive precision is the parameter `formatFixed`, and float rounding is not modelled. The `float(result)` conversion of the result field keeps the exact value.
- Calculator.CheckPrecision: the `isinstance(precision, int)` check is not modelled, because the model's precision is always an integer. The same holds for the `isinstance` checks on limit and language in `search.py`.
- Text.LowerChar: non-ASCII lower-casing other than the Kelvin sign is not modelled. Only characters whose lower case is ASCII matter to the extension and domain checks. The stored lower-cased domains of `ValidateDomains` and `BuildSearchQuery` do differ from Python for other non-ASCII capitals: "É.com" stays "É.com" where Python gives "é.com".
- Symbolic links, modification times and access flags: `FileInfo` omits `modified_time`, `readable` and `writable`. `resolve()` is lexical, and the stat fallback of `_get_file_info` (`src/tools/file_manager.py:368-378`) never triggers.
- Directory sizes: the size `stat` reports for a directory depends on the operating system, so it is the parameter `dirSize`.
- Special files: the file system holds only regular files and directories, so the "neither file nor directory" branch of delete and the read of a non-regular file are not modelled.
- FileManager.ReadSpec: the second failure of the latin-1 fallback (`src/tools/file_manager.py:245-246`) cannot happen, because latin-1 decodes every byte sequence. Its branch is absent.
- OS error messages: their wording is approximated by `strerror`-style texts, and the quoting in `str(e)` is not modelled.
- Codecs: encoders and decoders are parameters with a round-trip law. Their internals are not modelled.
- Rate limiting: `_enforce_rate_limit`, `time.sleep`, `time.time` and `search_time` are clocks and delays, so they are not modelled.
- Health checks: `src/tools/file_manager.py:78-99`, `src/tools/calculator.py:57-65`, `src/api/web_search.py:24-31` and `src/tools/search.py:54-61` probe the running system, so they are not modelled.
- Integration stubs: the example functions `integrate_google_search` and `integrate_bing_search` (`src/api/web_search.py:90-132`) are not modelled.
- Informational getters: `get_supported_operations`, `get_operation_info`, `get_safe_directories` and `get_allowed_extensions` only report configuration, so they are not modelled.
- Field errors: pydantic's message formats and error ordering are approximated, and whether validators run on default values is not modelled.
- Configuration: `src/config.py`'s environment functions and the directory creation at import time are not modelled.
- FileManager.CheckResolved: the relative-path branch (`src/tools/file_manager.py:160-161`) is absent, because a resolved path is always absolute.
- WebSearch.WebSearchApi.Search: the language and the API key do not influence the stub's answers.
- WebSearch.Answers: the bound of at most `limit` answers is stated only for a non-negative limit. A negative limit slices from the end, which the search tool never passes.
