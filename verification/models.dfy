/** The declarative input and output records (`src/models.py`).

    Each pydantic model becomes a datatype, and constructing it from raw
    field values becomes a `Build…` function that applies the field bounds
    and the `@validator` methods to the given values and either yields the
    record or lists every field that failed, the way a pydantic
    `ValidationError` itemises its errors. A field-level validator only runs
    once the field's own bounds hold, and a cross-field validator only sees
    the fields declared before it that were valid. */
module Models {
  import opened Outcomes
  import opened Text
  import Config

  // --- enumerations --------------------------------------------------------

  datatype OperationType = Add | Subtract | Multiply | Divide | Power | Modulo

  /** The enum member's string value. */
  function OperationValue(op: OperationType): string {
    match op
    case Add => "add"
    case Subtract => "subtract"
    case Multiply => "multiply"
    case Divide => "divide"
    case Power => "power"
    case Modulo => "modulo"
  }

  /** `f"{op}"` for a member of the `str`-valued enum: since Python 3.12 a
      mixed-in enum formats as its class and member name, not its value. */
  function OperationName(op: OperationType): (s: string)
    ensures |s| > |"OperationType."| && s[..|"OperationType."|] == "OperationType."
  {
    "OperationType." +
      match op
      case Add => "ADD"
      case Subtract => "SUBTRACT"
      case Multiply => "MULTIPLY"
      case Divide => "DIVIDE"
      case Power => "POWER"
      case Modulo => "MODULO"
  }

  /** Different members format differently, and never as their value. */
  lemma OperationNameInjective(a: OperationType, b: OperationType)
    ensures OperationName(a) == OperationName(b) <==> a == b
    ensures OperationName(a) != OperationValue(b)
  {
    if OperationName(a) == OperationName(b) {
      var k := |"OperationType."|;
      assert OperationName(a)[k..] == OperationName(b)[k..];
    }
    assert OperationName(a)[0] != OperationValue(b)[0];
  }

  /** The text of the arity error both layers raise. */
  function ArityMessage(op: OperationType): string {
    "Operation " + OperationName(op) + " requires exactly 2 numbers"
  }

  /** `OperationType(s)`: look a member up by its value. */
  function ParseOperation(s: string): Option<OperationType> {
    if s == "add" then Some(Add)
    else if s == "subtract" then Some(Subtract)
    else if s == "multiply" then Some(Multiply)
    else if s == "divide" then Some(Divide)
    else if s == "power" then Some(Power)
    else if s == "modulo" then Some(Modulo)
    else None
  }

  /** Lookup by value and the value of a member are inverse to each other. */
  lemma ParseOperationInverse(s: string, op: OperationType)
    ensures ParseOperation(s) == Some(op) <==> s == OperationValue(op)
  {
  }

  /** The operations that take exactly two operands. */
  predicate IsBinary(op: OperationType) {
    op == Subtract || op == Divide || op == Power || op == Modulo
  }

  datatype FileOperation = Read | Write | List | Exists | Delete

  function FileOperationValue(op: FileOperation): string {
    match op
    case Read => "read"
    case Write => "write"
    case List => "list"
    case Exists => "exists"
    case Delete => "delete"
  }

  function ParseFileOperation(s: string): Option<FileOperation> {
    if s == "read" then Some(Read)
    else if s == "write" then Some(Write)
    else if s == "list" then Some(List)
    else if s == "exists" then Some(Exists)
    else if s == "delete" then Some(Delete)
    else None
  }

  lemma ParseFileOperationInverse(s: string, op: FileOperation)
    ensures ParseFileOperation(s) == Some(op) <==> s == FileOperationValue(op)
  {
  }

  // --- numbers -------------------------------------------------------------

  /** A Python float: a finite value or one of the special values. Finite
      values are kept exact, since the calculator converts each one to a
      decimal through its shortest `str` form. */
  datatype Float = Finite(value: real) | NaN | Infinity(negative: bool)

  predicate IsZero(x: Float) {
    x == Finite(0.0)
  }

  // --- validation results --------------------------------------------------

  datatype FieldError = FieldError(field: string, message: string)

  /** A constructed record, or every field error found. */
  datatype Validated<T> = Valid(value: T) | Invalid(errors: seq<FieldError>)

  /** Some error in the list is about the given field. */
  predicate Mentions(errors: seq<FieldError>, field: string) {
    exists i :: 0 <= i < |errors| && errors[i].field == field
  }

  function ErrorsOf<T>(v: Validated<T>): seq<FieldError> {
    if v.Invalid? then v.errors else []
  }

  lemma MentionsAppend(a: seq<FieldError>, b: seq<FieldError>, field: string)
    ensures Mentions(a + b, field) <==> Mentions(a, field) || Mentions(b, field)
  {
    if Mentions(a + b, field) {
      var i :| 0 <= i < |a + b| && (a + b)[i].field == field;
      if i >= |a| {
        assert b[i - |a|].field == field;
      }
    }
    if Mentions(a, field) {
      var i :| 0 <= i < |a| && a[i].field == field;
      assert (a + b)[i].field == field;
    }
    if Mentions(b, field) {
      var i :| 0 <= i < |b| && b[i].field == field;
      assert (a + b)[|a| + i].field == field;
    }
  }

  /** Every error in the list is about one field. */
  predicate AllAbout(errors: seq<FieldError>, field: string) {
    forall i :: 0 <= i < |errors| ==> errors[i].field == field
  }

  lemma MentionsAllAbout(errors: seq<FieldError>, f: string, g: string)
    requires AllAbout(errors, f)
    ensures Mentions(errors, g) <==> errors != [] && f == g
  {
    if errors != [] && f == g {
      assert errors[0].field == g;
    }
  }

  /** Errors gathered from three fields, each list about its own field:
      a field is mentioned exactly when its own list is non-empty. */
  lemma MentionsOfThree(e1: seq<FieldError>, f1: string, e2: seq<FieldError>, f2: string,
                        e3: seq<FieldError>, f3: string, g: string)
    requires AllAbout(e1, f1) && AllAbout(e2, f2) && AllAbout(e3, f3)
    ensures Mentions(e1 + e2 + e3, g) <==> (e1 != [] && f1 == g) || (e2 != [] && f2 == g) || (e3 != [] && f3 == g)
  {
    MentionsAppend(e1 + e2, e3, g);
    MentionsAppend(e1, e2, g);
    MentionsAllAbout(e1, f1, g);
    MentionsAllAbout(e2, f2, g);
    MentionsAllAbout(e3, f3, g);
  }

  // --- CalculatorInput -------------------------------------------------------

  datatype CalculatorInput = CalculatorInput(operation: OperationType, numbers: seq<Float>, precision: int)

  const DefaultPrecision: int := 2

  /** `CalculatorInput.validate_numbers`, given the operation if it parsed. */
  function ValidateInputNumbers(operation: Option<OperationType>, v: seq<Float>): (r: Result<seq<Float>>)
    ensures r.Ok? ==> r.value == v
    ensures operation.Some? && IsBinary(operation.value) && |v| != 2 ==> r.Err?
    ensures r.Err? <==> operation.Some? && ((IsBinary(operation.value) && |v| != 2)
                                           || (operation.value == Divide && |v| == 2 && IsZero(v[1])))
    ensures operation == Some(Divide) && |v| == 2 && IsZero(v[1]) ==>
      r == Err(Exception(ValueError, "Cannot divide by zero"))
    ensures operation.Some? && IsBinary(operation.value) && |v| != 2 ==>
      r == Err(Exception(ValueError, ArityMessage(operation.value)))
  {
    if operation.Some? && IsBinary(operation.value) && |v| != 2 then
      Err(Exception(ValueError, ArityMessage(operation.value)))
    else if operation == Some(Divide) && |v| > 1 && IsZero(v[1]) then
      Err(Exception(ValueError, "Cannot divide by zero"))
    else
      Ok(v)
  }

  /** The two layers disagree on a zero second operand: this layer refuses
      it for division and lets it through for modulo. */
  lemma ModelZeroDivisorAsymmetry(a: Float)
    ensures ValidateInputNumbers(Some(Divide), [a, Finite(0.0)]).Err?
    ensures ValidateInputNumbers(Some(Modulo), [a, Finite(0.0)]) == Ok([a, Finite(0.0)])
  {
  }

  /** The errors about an `operation` field of enum type, given the
      member its text named, if any. */
  function OperationFieldErrors<T>(operation: Option<T>): (r: seq<FieldError>)
    ensures AllAbout(r, "operation") && (r == [] <==> operation.Some?)
  {
    if operation.None? then [FieldError("operation", "value is not a valid enumeration member")] else []
  }

  function NumbersFieldErrors(operation: Option<OperationType>, numbers: seq<Float>): (r: seq<FieldError>)
    ensures AllAbout(r, "numbers")
    ensures r == [] <==> 1 <= |numbers| <= 10 && ValidateInputNumbers(operation, numbers).Ok?
  {
    if |numbers| < 1 then [FieldError("numbers", "ensure this value has at least 1 items")]
    else if |numbers| > 10 then [FieldError("numbers", "ensure this value has at most 10 items")]
    else match ValidateInputNumbers(operation, numbers)
      case Ok(_) => []
      case Err(e) => [FieldError("numbers", e.message)]
  }

  function PrecisionFieldErrors(precision: int): (r: seq<FieldError>)
    ensures AllAbout(r, "precision")
    ensures r == [] <==> 0 <= precision <= Config.CalculatorMaxPrecision
  {
    if precision < 0 then [FieldError("precision", "ensure this value is greater than or equal to 0")]
    else if precision > Config.CalculatorMaxPrecision then [FieldError("precision", "ensure this value is less than or equal to 15")]
    else []
  }

  /** `CalculatorInput(operation=…, numbers=…, precision=…)`. */
  function BuildCalculatorInput(operation: string, numbers: seq<Float>, precision: int): (r: Validated<CalculatorInput>)
    ensures Mentions(ErrorsOf(r), "operation") <==> ParseOperation(operation).None?
    ensures Mentions(ErrorsOf(r), "numbers") <==>
      !(1 <= |numbers| <= 10 && ValidateInputNumbers(ParseOperation(operation), numbers).Ok?)
    ensures Mentions(ErrorsOf(r), "precision") <==> !(0 <= precision <= Config.CalculatorMaxPrecision)
    ensures r.Valid? <==>
      && ParseOperation(operation).Some?
      && 1 <= |numbers| <= 10
      && 0 <= precision <= Config.CalculatorMaxPrecision
      && (IsBinary(ParseOperation(operation).value) ==> |numbers| == 2)
      && !(ParseOperation(operation) == Some(Divide) && IsZero(numbers[1]))
    ensures r.Valid? ==> r.value == CalculatorInput(ParseOperation(operation).value, numbers, precision)
  {
    var op := ParseOperation(operation);
    var e1, e2, e3 := OperationFieldErrors(op), NumbersFieldErrors(op, numbers), PrecisionFieldErrors(precision);
    var errors := e1 + e2 + e3;
    MentionsOfThree(e1, "operation", e2, "numbers", e3, "precision", "operation");
    MentionsOfThree(e1, "operation", e2, "numbers", e3, "precision", "numbers");
    MentionsOfThree(e1, "operation", e2, "numbers", e3, "precision", "precision");
    if errors == [] then Valid(CalculatorInput(op.value, numbers, precision)) else Invalid(errors)
  }

  // --- FileManagerInput ------------------------------------------------------

  datatype FileManagerInput = FileManagerInput(operation: FileOperation, path: string, content: Option<string>, encoding: string)

  const DefaultEncoding: string := "utf-8"
  const MaxContentLength: nat := 1000000

  /** `FileManagerInput.validate_path`: a plain text test, no resolution. */
  function ValidatePath(v: string): (r: Result<string>)
    ensures r.Ok? <==> !ContainsDotDot(v) && !(|v| > 0 && v[0] == '/')
    ensures r.Ok? ==> r.value == v
  {
    if ContainsDotDot(v) || (|v| > 0 && v[0] == '/') then Err(Exception(ValueError, "Path traversal not allowed"))
    else Ok(v)
  }

  /** `FileManagerInput.validate_content`: a write needs content. */
  function ValidateContent(operation: Option<FileOperation>, v: Option<string>): (r: Result<Option<string>>)
    ensures r.Err? <==> operation == Some(Write) && v.None?
    ensures r.Ok? ==> r.value == v
  {
    if operation == Some(Write) && v.None? then Err(Exception(ValueError, "Content required for write operations"))
    else Ok(v)
  }

  function PathFieldErrors(path: string): (r: seq<FieldError>)
    ensures AllAbout(r, "path")
    ensures r == [] <==> 1 <= |path| <= 500 && ValidatePath(path).Ok?
  {
    if |path| < 1 then [FieldError("path", "ensure this value has at least 1 characters")]
    else if |path| > 500 then [FieldError("path", "ensure this value has at most 500 characters")]
    else match ValidatePath(path)
      case Ok(_) => []
      case Err(e) => [FieldError("path", e.message)]
  }

  function ContentFieldErrors(operation: Option<FileOperation>, content: Option<string>): (r: seq<FieldError>)
    ensures AllAbout(r, "content")
    ensures r == [] <==> (content.Some? ==> |content.value| <= MaxContentLength) && ValidateContent(operation, content).Ok?
  {
    if content.Some? && |content.value| > MaxContentLength then [FieldError("content", "ensure this value has at most 1000000 characters")]
    else match ValidateContent(operation, content)
      case Ok(_) => []
      case Err(e) => [FieldError("content", e.message)]
  }

  /** `FileManagerInput(operation=…, path=…, content=…, encoding=…)`. */
  function BuildFileManagerInput(operation: string, path: string, content: Option<string>, encoding: string): (r: Validated<FileManagerInput>)
    ensures Mentions(ErrorsOf(r), "operation") <==> ParseFileOperation(operation).None?
    ensures Mentions(ErrorsOf(r), "path") <==>
      !(1 <= |path| <= 500 && !ContainsDotDot(path) && path[0] != '/')
    ensures Mentions(ErrorsOf(r), "content") <==>
      (content.Some? && |content.value| > MaxContentLength) || (ParseFileOperation(operation) == Some(Write) && content.None?)
    ensures r.Valid? <==>
      && ParseFileOperation(operation).Some?
      && 1 <= |path| <= 500 && !ContainsDotDot(path) && path[0] != '/'
      && (content.Some? ==> |content.value| <= MaxContentLength)
      && (ParseFileOperation(operation) == Some(Write) ==> content.Some?)
    ensures r.Valid? ==> r.value == FileManagerInput(ParseFileOperation(operation).value, path, content, encoding)
  {
    var op := ParseFileOperation(operation);
    var e1, e2, e3 := OperationFieldErrors(op), PathFieldErrors(path), ContentFieldErrors(op, content);
    var errors := e1 + e2 + e3;
    MentionsOfThree(e1, "operation", e2, "path", e3, "content", "operation");
    MentionsOfThree(e1, "operation", e2, "path", e3, "content", "path");
    MentionsOfThree(e1, "operation", e2, "path", e3, "content", "content");
    if errors == [] then Valid(FileManagerInput(op.value, path, content, encoding)) else Invalid(errors)
  }

  // --- SearchQuery -----------------------------------------------------------

  datatype SearchQuery = SearchQuery(text: string, domains: seq<string>, limit: int, language: string)

  const DefaultLimit: int := 10
  const DefaultLanguage: string := "en"

  /** The shape `validate_domains` demands of one domain. */
  predicate DomainShapeOk(d: string) {
    d != [] && '.' in d
  }

  /** `SearchQuery.validate_domains`: refuse the first malformed domain,
      otherwise lower-case every domain. */
  function ValidateDomains(v: seq<string>): (r: Result<seq<string>>)
    ensures r.Ok? <==> forall i :: 0 <= i < |v| ==> DomainShapeOk(v[i])
    ensures r.Ok? ==> |r.value| == |v| && forall i :: 0 <= i < |v| ==> r.value[i] == Lower(v[i])
    ensures r.Err? ==>
      exists i :: 0 <= i < |v| && !DomainShapeOk(v[i]) && r.error == Exception(ValueError, "Invalid domain format: " + v[i])
                  && forall j :: 0 <= j < i ==> DomainShapeOk(v[j])
  {
    if v == [] then Ok([])
    else if !DomainShapeOk(v[0]) then Err(Exception(ValueError, "Invalid domain format: " + v[0]))
    else match ValidateDomains(v[1..])
      case Ok(rest) => Ok([Lower(v[0])] + rest)
      case Err(e) => Err(e)
  }

  /** Lower-casing keeps a domain's shape. */
  lemma LowerKeepsDomainShape(d: string)
    requires DomainShapeOk(d)
    ensures DomainShapeOk(Lower(d))
  {
    var i :| 0 <= i < |d| && d[i] == '.';
    assert Lower(d)[i] == '.';
  }

  /** Normalising the domains a second time changes nothing. */
  lemma ValidateDomainsIdempotent(v: seq<string>)
    requires ValidateDomains(v).Ok?
    ensures ValidateDomains(ValidateDomains(v).value) == ValidateDomains(v)
  {
    var w := ValidateDomains(v).value;
    forall i | 0 <= i < |w| ensures DomainShapeOk(w[i]) && Lower(w[i]) == w[i] {
      LowerKeepsDomainShape(v[i]);
      LowerIdempotent(v[i]);
    }
  }

  function SearchFieldErrors(text: string, domains: seq<string>, limit: int, language: string): seq<FieldError> {
    (if |text| < 1 then [FieldError("text", "ensure this value has at least 1 characters")]
     else if |text| > 1000 then [FieldError("text", "ensure this value has at most 1000 characters")]
     else [])
    + (if |domains| > 10 then [FieldError("domains", "ensure this value has at most 10 items")]
       else match ValidateDomains(domains)
            case Ok(_) => []
            case Err(e) => [FieldError("domains", e.message)])
    + (if limit < 1 then [FieldError("limit", "ensure this value is greater than or equal to 1")]
       else if limit > 100 then [FieldError("limit", "ensure this value is less than or equal to 100")]
       else [])
    + (if |language| < 2 then [FieldError("language", "ensure this value has at least 2 characters")]
       else if |language| > 5 then [FieldError("language", "ensure this value has at most 5 characters")]
       else [])
  }

  /** `SearchQuery(text=…, domains=…, limit=…, language=…)`; the stored
      domains are the normalised ones. */
  function BuildSearchQuery(text: string, domains: seq<string>, limit: int, language: string): (r: Validated<SearchQuery>)
    ensures r.Valid? <==>
      && 1 <= |text| <= 1000
      && |domains| <= 10 && (forall i :: 0 <= i < |domains| ==> DomainShapeOk(domains[i]))
      && 1 <= limit <= 100
      && 2 <= |language| <= 5
    ensures r.Valid? ==>
      && r.value.text == text && r.value.limit == limit && r.value.language == language
      && |r.value.domains| == |domains|
      && forall i :: 0 <= i < |domains| ==> r.value.domains[i] == Lower(domains[i])
  {
    var errors := SearchFieldErrors(text, domains, limit, language);
    if errors == [] then
      Valid(SearchQuery(text, ValidateDomains(domains).value, limit, language))
    else
      Invalid(errors)
  }

  // --- output records and their bounds -----------------------------------------

  datatype CalculatorResult = CalculatorResult(
    result: real, operation: OperationType, inputNumbers: seq<Float>, formattedResult: string)

  /** `FileInfo`; the modification time and the access flags are not modelled. */
  datatype FileInfo = FileInfo(name: string, path: string, size: int, isDirectory: bool)

  /** `FileInfo(...)`: the size must not be negative. */
  function BuildFileInfo(name: string, path: string, size: int, isDirectory: bool): (r: Validated<FileInfo>)
    ensures r.Valid? <==> size >= 0
    ensures r.Valid? ==> r.value == FileInfo(name, path, size, isDirectory)
  {
    if size < 0 then Invalid([FieldError("size", "ensure this value is greater than or equal to 0")])
    else Valid(FileInfo(name, path, size, isDirectory))
  }

  /** `FileManagerResult`, with the `success` flag every construction site
      passes although the record does not declare it. */
  datatype FileManagerResult = FileManagerResult(
    operation: FileOperation, path: string, success: bool,
    content: Option<string>, files: Option<seq<FileInfo>>, fileInfo: Option<FileInfo>,
    message: string)

  datatype SearchResult = SearchResult(
    title: string, url: string, snippet: string, domain: string, relevanceScore: Option<real>)

  /** `SearchResult(...)`: a relevance score, when given, lies in [0, 1]. */
  function BuildSearchResult(title: string, url: string, snippet: string, domain: string, relevanceScore: Option<real>): (r: Validated<SearchResult>)
    ensures r.Valid? <==> (relevanceScore.Some? ==> 0.0 <= relevanceScore.value <= 1.0)
    ensures r.Valid? ==> r.value == SearchResult(title, url, snippet, domain, relevanceScore)
  {
    if relevanceScore.Some? && relevanceScore.value < 0.0 then
      Invalid([FieldError("relevance_score", "ensure this value is greater than or equal to 0.0")])
    else if relevanceScore.Some? && relevanceScore.value > 1.0 then
      Invalid([FieldError("relevance_score", "ensure this value is less than or equal to 1.0")])
    else
      Valid(SearchResult(title, url, snippet, domain, relevanceScore))
  }

  datatype SearchResponse = SearchResponse(query: string, results: seq<SearchResult>, totalFound: int)

  datatype ServerInfo = ServerInfo(
    name: string, version: string, description: string, capabilities: seq<string>,
    toolsCount: int, uptime: real, status: string)

  const DefaultServerStatus: string := "running"

  /** `ServerInfo(...)`: tool count and uptime are not negative; every
      field, `status` included, is stored as given. */
  function BuildServerInfo(name: string, version: string, description: string, capabilities: seq<string>,
                           toolsCount: int, uptime: real, status: string): (r: Validated<ServerInfo>)
    ensures r.Valid? <==> toolsCount >= 0 && uptime >= 0.0
    ensures r.Valid? ==> r.value == ServerInfo(name, version, description, capabilities, toolsCount, uptime, status)
    ensures Mentions(ErrorsOf(r), "tools_count") <==> toolsCount < 0
    ensures Mentions(ErrorsOf(r), "uptime") <==> uptime < 0.0
  {
    var e1 := if toolsCount < 0 then [FieldError("tools_count", "ensure this value is greater than or equal to 0")] else [];
    var e2 := if uptime < 0.0 then [FieldError("uptime", "ensure this value is greater than or equal to 0.0")] else [];
    MentionsAppend(e1, e2, "tools_count");
    MentionsAppend(e1, e2, "uptime");
    MentionsAllAbout(e1, "tools_count", "tools_count");
    MentionsAllAbout(e1, "tools_count", "uptime");
    MentionsAllAbout(e2, "uptime", "tools_count");
    MentionsAllAbout(e2, "uptime", "uptime");
    var errors := e1 + e2;
    if errors == [] then Valid(ServerInfo(name, version, description, capabilities, toolsCount, uptime, status))
    else Invalid(errors)
  }

  datatype HealthCheck = HealthCheck(status: string, checks: map<string, bool>, responseTime: real)

  const DefaultHealthStatus: string := "healthy"

  /** `HealthCheck(...)`: the response time is not negative; `status` and
      the checks are stored as given. */
  function BuildHealthCheck(status: string, checks: map<string, bool>, responseTime: real): (r: Validated<HealthCheck>)
    ensures r.Valid? <==> responseTime >= 0.0
    ensures r.Valid? ==> r.value == HealthCheck(status, checks, responseTime)
  {
    if responseTime < 0.0 then Invalid([FieldError("response_time", "ensure this value is greater than or equal to 0.0")])
    else Valid(HealthCheck(status, checks, responseTime))
  }

  /** The records built with every defaulted field left at its default:
      precision 2, encoding "utf-8", limit 10, language "en", status
      "running" and "healthy". */
  lemma DefaultsAccepted(x: real, path: string, text: string)
    requires 1 <= |path| <= 500 && !ContainsDotDot(path) && path[0] != '/'
    requires 1 <= |text| <= 1000
    ensures BuildCalculatorInput("add", [Finite(x)], DefaultPrecision) == Valid(CalculatorInput(Add, [Finite(x)], 2))
    ensures BuildFileManagerInput("read", path, None, DefaultEncoding) == Valid(FileManagerInput(Read, path, None, "utf-8"))
    ensures BuildSearchQuery(text, [], DefaultLimit, DefaultLanguage) == Valid(SearchQuery(text, [], 10, "en"))
    ensures BuildServerInfo("s", "0.1.0", "", [], 0, 0.0, DefaultServerStatus).value.status == "running"
    ensures BuildHealthCheck(DefaultHealthStatus, map[], 0.0).value.status == "healthy"
  {
  }
}
