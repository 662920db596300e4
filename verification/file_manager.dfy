/** The sandboxed file manager (`src/tools/file_manager.py`).

    A request names an operation and a path. The path is checked and
    resolved first (`_validate_and_normalize_path`); errors found there are
    raised to the caller. The operation then runs against the file system;
    whatever it raises is turned into a result whose `success` flag is
    false.

    The specification of each operation is a function of the file-system
    state (or, for listing, a predicate, because the order in which the
    operating system yields directory entries is not known); the methods of
    `FileManagerTool` carry them out on a `FileSystem` object. */
module FileManager {
  import opened Outcomes
  import opened Text
  import opened Paths
  import opened FileSystem
  import opened Models
  import Config

  // --- codecs ----------------------------------------------------------------

  /** Decoding bytes under a named codec. */
  datatype Decoding = Decoded(text: string) | Undecodable | DecoderUnknown

  /** Encoding text under a named codec; `message` is what the codec's
      `UnicodeEncodeError` says. */
  datatype Encoding = Encoded(bytes: seq<Byte>) | Unencodable(message: string) | EncoderUnknown

  /** The codec registry of the running interpreter, by codec name. */
  datatype Codecs = Codecs(decode: (string, seq<Byte>) -> Decoding, encode: (string, string) -> Encoding)

  /** A codec that reads back whatever it wrote. */
  ghost predicate RoundTrips(c: Codecs, encoding: string) {
    forall s :: c.encode(encoding, s).Encoded? ==> c.decode(encoding, c.encode(encoding, s).bytes) == Decoded(s)
  }

  function UnknownEncoding(encoding: string): Exception {
    Exception(LookupError, "unknown encoding: " + encoding)
  }

  /** The `latin-1` codec: every byte is the character with that code. */
  function Latin1(data: seq<Byte>): (s: string)
    ensures |s| == |data|
    ensures forall i :: 0 <= i < |data| ==> s[i] as int == data[i]
  {
    seq(|data|, i requires 0 <= i < |data| => data[i] as char)
  }

  /** Universal newlines, as text-mode reading applies them: "\r\n" and a
      lone "\r" both become "\n". */
  function TranslateNewlines(s: string): (r: string)
    ensures '\r' !in r
    ensures |r| <= |s|
  {
    if s == [] then []
    else if s[0] == '\r' then
      if |s| > 1 && s[1] == '\n' then "\n" + TranslateNewlines(s[2..]) else "\n" + TranslateNewlines(s[1..])
    else [s[0]] + TranslateNewlines(s[1..])
  }

  /** Text without carriage returns reads back unchanged. */
  lemma {:induction false} TranslateNewlinesIdentity(s: string)
    requires '\r' !in s
    ensures TranslateNewlines(s) == s
  {
    if s != [] {
      assert '\r' !in s[1..];
      TranslateNewlinesIdentity(s[1..]);
    }
  }

  // --- the sandbox -----------------------------------------------------------

  /** The settings `_validate_and_normalize_path` consults: the process's
      working directory (which resolves relative paths), the safe
      directories, the write paths and the extension lists. */
  datatype Sandbox = Sandbox(
    cwd: Path,
    safeDirectories: seq<Path>,
    writePaths: seq<Path>,
    allowedExtensions: set<string>,
    blockedExtensions: set<string>)

  predicate WellFormed(sb: Sandbox) {
    Canonical(sb.cwd) && NulFree(sb.cwd)
  }

  /** The sandbox the configuration sets up for an installation at `base`. */
  function Configured(base: Path, cwd: Path): Sandbox {
    Sandbox(cwd, Config.SafeDirectories(base), Config.AllowedWritePaths(base),
      Config.AllowedExtensions, Config.BlockedExtensions)
  }

  /** `p` lies in (or is) one of `dirs`. */
  predicate Under(p: Path, dirs: seq<Path>) {
    exists i :: 0 <= i < |dirs| && IsRelativeTo(p, dirs[i])
  }

  /** `_is_extension_allowed`. */
  predicate ExtensionAllowed(sb: Sandbox, ext: string) {
    && Lower(ext) !in sb.blockedExtensions
    && (sb.allowedExtensions == {} || Lower(ext) in sb.allowedExtensions)
  }

  /** With the configured lists, which are disjoint and non-empty, an
      extension is allowed exactly when its lower-case form is listed. */
  lemma ConfiguredExtensions(base: Path, cwd: Path, ext: string)
    ensures ExtensionAllowed(Configured(base, cwd), ext) <==> Lower(ext) in Config.AllowedExtensions
  {
    assert ".txt" in Config.AllowedExtensions;
  }

  const EmptyPath := Exception(ValueError, "Path cannot be empty")
  const Traversal := Exception(ValueError, "Path traversal attempts not allowed")
  const OutsideSafe := Exception(PermissionError, "Access denied: Path outside safe directories")

  function WriteDenied(u: Path): Exception {
    Exception(PermissionError, "Write access denied: " + Render(u))
  }

  function InvalidFormat(message: string): Exception {
    Exception(ValueError, "Invalid path format: " + message)
  }

  function ExtensionRefused(ext: string): Exception {
    Exception(ValueError, "File extension not allowed: " + ext)
  }

  predicate Writes(op: FileOperation) {
    op == Write || op == Delete
  }

  predicate StartsWithDotDot(s: string) {
    |s| >= 2 && s[0] == '.' && s[1] == '.'
  }

  /** No component of `u` contains `..`. */
  predicate DotDotFree(u: Path) {
    forall i :: 0 <= i < |u| ==> !ContainsDotDot(u[i])
  }

  /** What a resolved path must satisfy to be used for `op`. */
  predicate Admissible(sb: Sandbox, u: Path, op: FileOperation) {
    && DotDotFree(u)
    && Under(u, sb.safeDirectories)
    && (Writes(op) ==> Under(u, sb.writePaths))
    && (Suffix(u) != "" ==> ExtensionAllowed(sb, Suffix(u)))
  }

  /** `_validate_and_normalize_path`: blank text, then resolution, then the
      `..` test on the resolved text, then the safe directories, then the
      write paths for writes and deletes, then the extension. The branch
      that would re-resolve a relative result against the data directory
      is absent: a resolved path is always absolute. */
  function CheckPath(sb: Sandbox, path: string, op: FileOperation): (r: Result<Path>)
    requires WellFormed(sb)
    ensures IsBlank(path) ==> r == Err(EmptyPath)
    ensures !IsBlank(path) && Resolve(sb.cwd, path).Err? ==>
      r == Err(InvalidFormat("embedded null byte"))
    ensures !IsBlank(path) && Resolve(sb.cwd, path).Ok? ==> r == CheckResolved(sb, Resolve(sb.cwd, path).value, op)
    ensures r.Ok? <==> !IsBlank(path) && Resolve(sb.cwd, path).Ok? && Admissible(sb, Resolve(sb.cwd, path).value, op)
    ensures r.Ok? ==> Resolve(sb.cwd, path) == r && Canonical(r.value)
  {
    if IsBlank(path) then Err(EmptyPath)
    else match Resolve(sb.cwd, path)
      case Err(e) => Err(InvalidFormat(e.message))
      case Ok(u) => CheckResolved(sb, u, op)
  }

  /** The checks on the resolved path `u`, each refusing with its own
      error, in the order the source makes them. */
  function CheckResolved(sb: Sandbox, u: Path, op: FileOperation): (r: Result<Path>)
    ensures !DotDotFree(u) ==> r == Err(Traversal)
    ensures DotDotFree(u) && !Under(u, sb.safeDirectories) ==> r == Err(OutsideSafe)
    ensures DotDotFree(u) && Under(u, sb.safeDirectories) && Writes(op) && !Under(u, sb.writePaths) ==>
      r == Err(WriteDenied(u))
    ensures DotDotFree(u) && Under(u, sb.safeDirectories) && (Writes(op) ==> Under(u, sb.writePaths))
            && Suffix(u) != "" && !ExtensionAllowed(sb, Suffix(u)) ==>
      r == Err(ExtensionRefused(Suffix(u)))
    ensures r.Ok? <==> Admissible(sb, u, op)
    ensures r.Ok? ==> r.value == u
  {
    RenderDotDot(u);
    if ContainsDotDot(Render(u)) || StartsWithDotDot(Render(u)) then Err(Traversal)
    else if !Under(u, sb.safeDirectories) then Err(OutsideSafe)
    else if Writes(op) && !Under(u, sb.writePaths) then Err(WriteDenied(u))
    else if Suffix(u) != "" && !ExtensionAllowed(sb, Suffix(u)) then Err(ExtensionRefused(Suffix(u)))
    else Ok(u)
  }

  /** The configured data and assets directories are disjoint, so nothing
      under the assets directory can be written or deleted. */
  lemma AssetsNeverWritable(base: Path, cwd: Path, path: string, op: FileOperation)
    requires Canonical(cwd) && NulFree(cwd)
    requires Writes(op) && CheckPath(Configured(base, cwd), path, op).Ok?
    ensures IsRelativeTo(CheckPath(Configured(base, cwd), path, op).value, Config.DataDir(base))
    ensures !IsRelativeTo(CheckPath(Configured(base, cwd), path, op).value, Config.AssetsDir(base))
  {
    var u := CheckPath(Configured(base, cwd), path, op).value;
    var data, assets := Config.DataDir(base), Config.AssetsDir(base);
    assert Config.AllowedWritePaths(base) == [data];
    assert IsRelativeTo(u, data);
    assert u[|base|] == data[|base|] == "data";
    assert assets[|base|] == "assets";
  }

  /** An accepted path, passed again in its resolved form, is accepted as
      the same path. */
  lemma CheckPathIdempotent(sb: Sandbox, path: string, op: FileOperation)
    requires WellFormed(sb) && CheckPath(sb, path, op).Ok?
    ensures CheckPath(sb, Render(CheckPath(sb, path, op).value), op) == CheckPath(sb, path, op)
  {
    var u := CheckPath(sb, path, op).value;
    ResolveIdempotent(sb.cwd, path);
    assert !IsBlank(Render(u)) by { assert !IsSpace(Render(u)[0]); }
  }

  /** The `..` test sees the resolved text, where `..` segments are gone:
      climbing out of the working directory is caught only by the
      safe-directory test. With the data directory as working directory,
      `../name` names an entry beside it and is refused as outside, for
      every operation. */
  lemma ClimbingOutIsOutsideSafe(base: Path, name: string, op: FileOperation)
    requires Canonical(base) && NulFree(base) && forall i :: 0 <= i < |base| ==> !ContainsDotDot(base[i])
    requires IsPart(name) && '\0' !in name && !ContainsDotDot(name)
    requires name != "data" && name != "assets"
    ensures CheckPath(Configured(base, Config.DataDir(base)), "../" + name, op) == Err(OutsideSafe)
  {
    var sb := Configured(base, Config.DataDir(base));
    var text := "../" + name;
    var u := base + [name];
    assert name != ".." by { assert ".."[0] == '.' && ".."[1] == '.'; assert ContainsDotDot(".."); }
    ResolveClimb(base, name);
    assert !IsBlank(text) by { assert !IsSpace(text[0]); }
    assert CheckPath(sb, text, op) == CheckResolved(sb, u, op);
    BesideIsOutsideSafe(base, name, op);
  }

  /** The entry `name` beside the data directory passes the `..` test and
      fails the safe-directory test. */
  lemma BesideIsOutsideSafe(base: Path, name: string, op: FileOperation)
    requires forall i :: 0 <= i < |base| ==> !ContainsDotDot(base[i])
    requires !ContainsDotDot(name) && name != "data" && name != "assets"
    ensures CheckResolved(Configured(base, Config.DataDir(base)), base + [name], op) == Err(OutsideSafe)
  {
    var u := base + [name];
    NoDotDotBeside(base, name);
    assert !IsRelativeTo(u, Config.DataDir(base)) by { assert u[|base|] != "data"; }
    assert !IsRelativeTo(u, Config.AssetsDir(base)) by { assert u[|base|] != "assets"; }
  }

  lemma PartsOfClimb(name: string)
    requires IsPart(name) && name != ".."
    ensures Parts("../" + name) == ["..", name]
  {
    SegmentsOfConcat(name, "");
    assert name + "" == name;
    assert Segments(name) == [name];
    var tail := "/" + name;
    assert tail[0] == '/' && tail[1..] == name;
    assert Segments(tail) == [""] + [name];
    SegmentsOfConcat("..", tail);
    assert ".." + "" == "..";
    assert Segments(".." + tail) == ["..", name];
    assert ".." + tail == "../" + name;
    assert Kept(["..", name]) == ["..", name];
  }

  lemma ResolveClimb(base: Path, name: string)
    requires Canonical(base) && NulFree(base) && IsPart(name) && name != ".." && '\0' !in name
    ensures Resolve(Config.DataDir(base), "../" + name) == Ok(base + [name])
  {
    var text := "../" + name;
    PartsOfClimb(name);
    assert !IsAbsolute(text) by { assert text[0] == '.'; }
    assert NulFree(["..", name]);
    var parts := ["..", name];
    assert parts[1..] == [name] && [name][1..] == [];
    assert Parent(Config.DataDir(base)) == base;
    assert Walk(base, [name]) == Walk(base + [name], []);
  }

  lemma NoDotDotBeside(base: Path, name: string)
    requires forall i :: 0 <= i < |base| ==> !ContainsDotDot(base[i])
    requires !ContainsDotDot(name)
    ensures !ContainsDotDot(Render(base + [name])) && !StartsWithDotDot(Render(base + [name]))
  {
    var u := base + [name];
    RenderDotDot(u);
    assert forall i :: 0 <= i < |u| ==> !ContainsDotDot(u[i]) by {
      assert forall i :: 0 <= i < |base| ==> u[i] == base[i];
    }
  }

  // --- the operations, as functions of the file-system state -----------------

  /** What an operation did: what it returned or raised, and the new state. */
  datatype Step = Step(result: Result<FileManagerResult>, nodes: map<Path, Node>)

  /** `_get_file_info` for an existing entry. A directory's `st_size` is
      whatever the file system reports for directories, `dirSize`. */
  function InfoOf(m: map<Path, Node>, p: Path, dirSize: nat): (info: FileInfo)
    requires p in m
    ensures info.name == Name(p) && info.path == Render(p)
    ensures info.isDirectory <==> m[p] == Dir
    ensures info.size >= 0
    ensures m[p].File? ==> info.size == |m[p].data|
  {
    match m[p]
    case File(data) => FileInfo(Name(p), Render(p), |data|, false)
    case Dir => FileInfo(Name(p), Render(p), dirSize, true)
  }

  function Succeeded(op: FileOperation, p: Path, message: string): FileManagerResult {
    FileManagerResult(op, Render(p), true, None, None, None, message)
  }

  function CharCount(s: string): string {
    IntToString(|s|)
  }

  function FileTooLarge(size: nat): Exception {
    Exception(ValueError, "File too large: " + IntToString(size) + " bytes (max: " + IntToString(Config.MaxFileSize) + ")")
  }

  /** `_read_file`: a missing path, a directory and an oversized file are
      refused in that order; then the bytes are decoded with `encoding`,
      falling back to latin-1 when they are not valid in it. */
  function ReadSpec(m: map<Path, Node>, p: Path, encoding: string, codecs: Codecs): (r: Result<FileManagerResult>)
    ensures r.Ok? <==> (p in m && m[p].File? && |m[p].data| <= Config.MaxFileSize
                        && !codecs.decode(encoding, m[p].data).DecoderUnknown?)
    ensures r.Ok? ==> r.value.success && r.value.operation == Read && r.value.path == Render(p)
                      && r.value.content.Some? && '\r' !in r.value.content.value
    ensures p !in m ==> r == Err(Exception(FileNotFoundError, "File not found: " + Render(p)))
    ensures p in m && m[p] == Dir ==> r == Err(Exception(ValueError, "Path is not a file: " + Render(p)))
    ensures p in m && m[p].File? && |m[p].data| > Config.MaxFileSize ==>
      r == Err(FileTooLarge(|m[p].data|)) && r.error.kind == ValueError
    ensures p in m && m[p].File? && |m[p].data| <= Config.MaxFileSize ==>
      match codecs.decode(encoding, m[p].data)
      case Decoded(s) =>
        r.Ok? && r.value.content == Some(TranslateNewlines(s))
        && r.value.message == "Successfully read file (" + CharCount(TranslateNewlines(s)) + " characters)"
      case Undecodable =>
        r.Ok? && r.value.content == Some(TranslateNewlines(Latin1(m[p].data)))
        && r.value.message == "Read with fallback encoding (" + CharCount(TranslateNewlines(Latin1(m[p].data))) + " characters)"
      case DecoderUnknown => r == Err(UnknownEncoding(encoding))
  {
    if p !in m then Err(Exception(FileNotFoundError, "File not found: " + Render(p)))
    else if m[p] == Dir then Err(Exception(ValueError, "Path is not a file: " + Render(p)))
    else
      var data := m[p].data;
      if |data| > Config.MaxFileSize then
        Err(FileTooLarge(|data|))
      else match codecs.decode(encoding, data)
        case Decoded(s) =>
          var text := TranslateNewlines(s);
          Ok(FileManagerResult(Read, Render(p), true, Some(text), None, None,
            "Successfully read file (" + CharCount(text) + " characters)"))
        case Undecodable =>
          var text := TranslateNewlines(Latin1(data));
          Ok(FileManagerResult(Read, Render(p), true, Some(text), None, None,
            "Read with fallback encoding (" + CharCount(text) + " characters)"))
        case DecoderUnknown => Err(UnknownEncoding(encoding))
  }

  /** `_write_file`: the content must be given and encodable, and its
      encoding no larger than the limit; then the parent directories are
      made and the file is written. Every failure leaves the state as it
      was: a write can fail after `mkdir` only when the target is a
      directory, and then its parents were all there already. */
  function WriteSpec(m: map<Path, Node>, p: Path, content: Option<string>, encoding: string, codecs: Codecs): (r: Step)
    requires TreeShaped(m)
    ensures TreeShaped(r.nodes)
    ensures r.result.Ok? <==> (content.Some? && codecs.encode(encoding, content.value).Encoded?
                               && |codecs.encode(encoding, content.value).bytes| <= Config.MaxFileSize
                               && NoFileOnWay(m, Parent(p)) && !(p in m && m[p] == Dir))
    ensures r.result.Ok? ==> (r.result.value.success
                              && r.nodes == MkdirParents(m, Parent(p)).nodes[p := File(codecs.encode(encoding, content.value).bytes)])
    ensures content.None? ==> r == Step(Err(Exception(ValueError, "Content required for write operation")), m)
    ensures r.result.Err? ==> r.nodes == m
  {
    if content.None? then Step(Err(Exception(ValueError, "Content required for write operation")), m)
    else match codecs.encode(encoding, content.value)
      case EncoderUnknown => Step(Err(UnknownEncoding(encoding)), m)
      case Unencodable(message) => Step(Err(Exception(UnicodeError, message)), m)
      case Encoded(bytes) =>
        if |bytes| > Config.MaxFileSize then
          Step(Err(Exception(ValueError, "Content too large: " + IntToString(|bytes|) + " bytes")), m)
        else
          var made := MkdirParents(m, Parent(p));
          if made.outcome.Fail? then Step(Err(made.outcome.error), m)
          else
            var n := made.nodes;
            AddDirsEntries(m, Parent(p), |Parent(p)| + 1);
            if p in n && n[p] == Dir then
              DirTargetMakesNothing(m, p);
              Step(Err(Exception(ValueError, "Failed to write file: " + IsADirectory(p).message)), n)
            else
              WriteKeepsTree(n, p, bytes);
              Step(Ok(Succeeded(Write, p, "Successfully wrote " + CharCount(content.value) + " characters to file")),
                n[p := File(bytes)])
  }

  /** Writing a regular file into an existing directory keeps the tree. */
  lemma WriteKeepsTree(m: map<Path, Node>, p: Path, bytes: seq<Byte>)
    requires TreeShaped(m) && Parent(p) in m && m[Parent(p)] == Dir && !(p in m && m[p] == Dir)
    ensures TreeShaped(m[p := File(bytes)])
  {
    var n := m[p := File(bytes)];
    assert p != [];
    forall q | q in n && q != []
      ensures Parent(q) in n && n[Parent(q)] == Dir
    {
      if q != p {
        assert Parent(q) in m && m[Parent(q)] == Dir;
        ChildName(m, q);
      }
    }
  }

  /** Names sorted in ascending code-point order. */
  predicate SortedByName(files: seq<FileInfo>) {
    forall i :: 0 <= i < |files| - 1 ==> StrLe(files[i].name, files[i + 1].name)
  }

  /** `files` holds the information of the entries directly inside `p`,
      each once, in some order. */
  predicate Enumerates(m: map<Path, Node>, p: Path, dirSize: nat, files: seq<FileInfo>) {
    && |files| == |ChildNames(m, p)|
    && (forall i :: 0 <= i < |files| ==>
          && files[i].name in ChildNames(m, p)
          && p + [files[i].name] in m
          && files[i] == InfoOf(m, p + [files[i].name], dirSize))
    && (forall n :: n in ChildNames(m, p) ==> exists i :: 0 <= i < |files| && files[i].name == n)
  }

  /** `files` lists the entries directly inside `p`, in ascending order of
      name. */
  predicate IsListing(m: map<Path, Node>, p: Path, dirSize: nat, files: seq<FileInfo>) {
    Enumerates(m, p, dirSize, files) && SortedByName(files)
  }

  /** Reordering an enumeration gives an enumeration. */
  lemma ReorderedEnumeration(m: map<Path, Node>, p: Path, dirSize: nat, files: seq<FileInfo>, sorted: seq<FileInfo>)
    requires Enumerates(m, p, dirSize, files) && multiset(sorted) == multiset(files)
    ensures Enumerates(m, p, dirSize, sorted)
  {
    forall i | 0 <= i < |sorted|
      ensures sorted[i].name in ChildNames(m, p) && p + [sorted[i].name] in m
        && sorted[i] == InfoOf(m, p + [sorted[i].name], dirSize)
    {
      assert sorted[i] in multiset(files);
    }
    forall n | n in ChildNames(m, p)
      ensures exists i :: 0 <= i < |sorted| && sorted[i].name == n
    {
      var i :| 0 <= i < |files| && files[i].name == n;
      assert files[i] in multiset(sorted);
    }
    assert |sorted| == |multiset(sorted)| == |files|;
  }

  /** `for item in path.iterdir()`: the entries come in an order the
      operating system chooses, modelled by picking any remaining one. */
  method IterDir(m: map<Path, Node>, p: Path, dirSize: nat) returns (files: seq<FileInfo>)
    ensures Enumerates(m, p, dirSize, files)
  {
    var children := ChildNames(m, p);
    var remaining := children;
    files := [];
    while remaining != {}
      invariant remaining <= children
      invariant |files| + |remaining| == |children|
      invariant forall i :: 0 <= i < |files| ==>
                  && files[i].name in children
                  && p + [files[i].name] in m && files[i] == InfoOf(m, p + [files[i].name], dirSize)
      invariant forall n :: n in children ==> n in remaining || exists i :: 0 <= i < |files| && files[i].name == n
      decreases |remaining|
    {
      var n :| n in remaining;
      ChildIn(m, p, n);
      var info := InfoOf(m, p + [n], dirSize);
      assert info.name == n;
      ghost var before := files;
      files := files + [info];
      assert files[|before|].name == n;
      assert forall i :: 0 <= i < |before| ==> files[i] == before[i];
      remaining := remaining - {n};
    }
  }

  /** `_list_directory`. */
  predicate ListSpec(m: map<Path, Node>, p: Path, dirSize: nat, r: Result<FileManagerResult>) {
    if p !in m then r == Err(Exception(FileNotFoundError, "Directory not found: " + Render(p)))
    else if m[p].File? then r == Err(Exception(ValueError, "Path is not a directory: " + Render(p)))
    else
      && r.Ok? && r.value.files.Some?
      && IsListing(m, p, dirSize, r.value.files.value)
      && r.value == FileManagerResult(List, Render(p), true, None, r.value.files, None,
           "Found " + IntToString(|r.value.files.value|) + " items in directory")
  }

  /** `_check_exists`: always succeeds; the information is there exactly
      when the path exists. */
  function ExistsSpec(m: map<Path, Node>, p: Path, dirSize: nat): (r: FileManagerResult)
    ensures r.success && r.operation == Exists && r.path == Render(p)
    ensures r.fileInfo.Some? <==> p in m
    ensures r.fileInfo.Some? ==> r.fileInfo.value.path == r.path
  {
    if p in m then FileManagerResult(Exists, Render(p), true, None, None, Some(InfoOf(m, p, dirSize)), "Path exists")
    else FileManagerResult(Exists, Render(p), true, None, None, None, "Path does not exist")
  }

  /** `_delete_file`: a regular file is unlinked, an empty directory
      removed, a non-empty one refused. */
  function DeleteSpec(m: map<Path, Node>, p: Path): (r: Step)
    requires TreeShaped(m)
    ensures TreeShaped(r.nodes)
    ensures r.result.Ok? <==> p in m && (m[p].File? || (p != [] && ChildNames(m, p) == {}))
    ensures r.result.Ok? ==> r.result.value.success && r.nodes == m - {p}
    ensures r.result.Err? ==> r.nodes == m
    ensures p !in m ==> r.result == Err(Exception(FileNotFoundError, "Path not found: " + Render(p)))
    ensures p in m && m[p] == Dir && ChildNames(m, p) != {} ==>
      r.result == Err(Exception(ValueError, "Failed to delete: Directory not empty (safety restriction)"))
  {
    if p !in m then Step(Err(Exception(FileNotFoundError, "Path not found: " + Render(p))), m)
    else if m[p].File? then
      RemoveKeepsTree(m, p);
      Step(Ok(Succeeded(Delete, p, "File deleted successfully")), m - {p})
    else if ChildNames(m, p) != {} then
      Step(Err(Exception(ValueError, "Failed to delete: Directory not empty (safety restriction)")), m)
    else if p == [] then
      Step(Err(Exception(ValueError, "Failed to delete: " + Busy(p).message)), m)
    else
      RemoveKeepsTree(m, p);
      Step(Ok(Succeeded(Delete, p, "Empty directory deleted successfully")), m - {p})
  }

  /** Removing an entry without children keeps the tree. */
  lemma RemoveKeepsTree(m: map<Path, Node>, p: Path)
    requires TreeShaped(m) && p in m && p != []
    requires m[p].File? || ChildNames(m, p) == {}
    ensures TreeShaped(m - {p})
  {
    var n := m - {p};
    forall q | q in n && q != []
      ensures Parent(q) in n && n[Parent(q)] == Dir
    {
      assert Parent(q) in m && m[Parent(q)] == Dir;
      ChildName(m, q);
    }
  }

  /** The operation `op` on the resolved path `p`, run in state `m`, ends in
      state `m2` with outcome `r` (a result, or the exception it raised). */
  predicate Performed(op: FileOperation, m: map<Path, Node>, m2: map<Path, Node>, p: Path,
                      content: Option<string>, encoding: string, codecs: Codecs, dirSize: nat,
                      r: Result<FileManagerResult>)
    requires TreeShaped(m)
  {
    match op
    case Read => m2 == m && r == ReadSpec(m, p, encoding, codecs)
    case Write => Step(r, m2) == WriteSpec(m, p, content, encoding, codecs)
    case List => m2 == m && ListSpec(m, p, dirSize, r)
    case Exists => m2 == m && r == Ok(ExistsSpec(m, p, dirSize))
    case Delete => Step(r, m2) == DeleteSpec(m, p)
  }

  /** `execute_operation`'s handler: what the operation raised becomes a
      failed result naming the path as given. */
  function Wrap(op: FileOperation, path: string, r: Result<FileManagerResult>): (res: FileManagerResult)
    ensures r.Ok? ==> res == r.value
    ensures r.Err? ==> !res.success && res.path == path && res.message == "Operation failed: " + r.error.message
  {
    match r
    case Ok(v) => v
    case Err(e) => FileManagerResult(op, path, false, None, None, None, "Operation failed: " + e.message)
  }

  /** What `initialize` does: make each safe directory in turn, stopping at
      the first failure. */
  function EnsureDirs(m: map<Path, Node>, dirs: seq<Path>): (r: Made)
    requires TreeShaped(m)
    ensures TreeShaped(r.nodes)
    ensures r.outcome.Pass? ==> forall i :: 0 <= i < |dirs| ==> dirs[i] in r.nodes && r.nodes[dirs[i]] == Dir
    decreases |dirs|
  {
    if dirs == [] then Made(Pass, m)
    else
      var before := EnsureDirs(m, dirs[..|dirs| - 1]);
      if before.outcome.Fail? then before
      else
        var r := MkdirParents(before.nodes, dirs[|dirs| - 1]);
        assert forall i :: 0 <= i < |dirs| - 1 ==> dirs[i] == dirs[..|dirs| - 1][i];
        r
  }

  /** Making one more directory, after the ones before it. */
  lemma EnsureDirsSnoc(m: map<Path, Node>, front: seq<Path>, d: Path)
    requires TreeShaped(m)
    ensures var before := EnsureDirs(m, front);
      EnsureDirs(m, front + [d]) == if before.outcome.Fail? then before else MkdirParents(before.nodes, d)
  {
    var s := front + [d];
    assert s[..|s| - 1] == front;
    assert s[|s| - 1] == d;
  }

  /** Once a prefix of the directories fails, the rest are not tried. */
  lemma {:induction false} EnsureDirsStops(m: map<Path, Node>, dirs: seq<Path>, k: nat)
    requires TreeShaped(m) && k <= |dirs| && EnsureDirs(m, dirs[..k]).outcome.Fail?
    ensures EnsureDirs(m, dirs) == EnsureDirs(m, dirs[..k])
    decreases |dirs| - k
  {
    if k < |dirs| {
      var front := dirs[..|dirs| - 1];
      assert front[..k] == dirs[..k];
      EnsureDirsStops(m, front, k);
    } else {
      assert dirs[..k] == dirs;
    }
  }

  // --- properties of the operations ------------------------------------------

  /** Write, then read with the same codec: the read returns the text that
      was written, up to universal newlines, and nothing else changed. */
  lemma WriteThenRead(m: map<Path, Node>, p: Path, content: string, encoding: string, codecs: Codecs)
    requires TreeShaped(m) && RoundTrips(codecs, encoding)
    requires WriteSpec(m, p, Some(content), encoding, codecs).result.Ok?
    ensures var m2 := WriteSpec(m, p, Some(content), encoding, codecs).nodes;
      && ReadSpec(m2, p, encoding, codecs).Ok?
      && ReadSpec(m2, p, encoding, codecs).value.content == Some(TranslateNewlines(content))
      && (forall q :: q in m && q != p ==> q in m2 && m2[q] == m[q])
  {
    var bytes := codecs.encode(encoding, content).bytes;
    var m2 := WriteSpec(m, p, Some(content), encoding, codecs).nodes;
    var made := MkdirParents(m, Parent(p)).nodes;
    assert m2 == made[p := File(bytes)];
    assert codecs.decode(encoding, bytes) == Decoded(content);
    MkdirKeepsEntries(m, Parent(p));
  }

  /** Making the directories on the way to `d`, when no file blocks it,
      changes no existing entry. */
  lemma MkdirKeepsEntries(m: map<Path, Node>, d: Path)
    requires TreeShaped(m) && NoFileOnWay(m, d)
    ensures forall q :: q in m ==> q in MkdirParents(m, d).nodes && MkdirParents(m, d).nodes[q] == m[q]
  {
    var made := MkdirParents(m, d).nodes;
    assert made == AddDirs(m, d, |d| + 1);
    AddDirsEntries(m, d, |d| + 1);
    forall q | q in m
      ensures q in made && made[q] == m[q]
    {
      if m[q].File? {
        assert forall j :: 0 <= j <= |d| ==> d[..j] != q;
        UnchangedOffTheWay(m, d, |d| + 1, q);
      }
    }
  }

  /** Making directories never replaces a regular file that is not on the
      way. */
  lemma {:induction false} UnchangedOffTheWay(m: map<Path, Node>, p: Path, k: nat, q: Path)
    requires k <= |p| + 1 && q in m
    requires forall j :: 0 <= j < k ==> p[..j] != q
    ensures q in AddDirs(m, p, k) && AddDirs(m, p, k)[q] == m[q]
  {
    if k > 0 {
      UnchangedOffTheWay(m, p, k - 1, q);
    }
  }

  /** Text without carriage returns reads back exactly. */
  lemma WriteThenReadExact(m: map<Path, Node>, p: Path, content: string, encoding: string, codecs: Codecs)
    requires TreeShaped(m) && RoundTrips(codecs, encoding) && '\r' !in content
    requires WriteSpec(m, p, Some(content), encoding, codecs).result.Ok?
    ensures ReadSpec(WriteSpec(m, p, Some(content), encoding, codecs).nodes, p, encoding, codecs).value.content == Some(content)
  {
    WriteThenRead(m, p, content, encoding, codecs);
    TranslateNewlinesIdentity(content);
  }

  /** Two listings of the same directory contain the same entries. */
  lemma ListingsAgree(m: map<Path, Node>, p: Path, dirSize: nat, a: seq<FileInfo>, b: seq<FileInfo>, i: nat)
    requires IsListing(m, p, dirSize, a) && IsListing(m, p, dirSize, b) && i < |a|
    ensures exists j :: 0 <= j < |b| && b[j] == a[i]
  {
    var n := a[i].name;
    var j :| 0 <= j < |b| && b[j].name == n;
    assert b[j] == InfoOf(m, p + [n], dirSize) == a[i];
  }

  /** Deleting and then checking: the path no longer exists. */
  lemma DeleteThenExists(m: map<Path, Node>, p: Path, dirSize: nat)
    requires TreeShaped(m) && DeleteSpec(m, p).result.Ok?
    ensures ExistsSpec(DeleteSpec(m, p).nodes, p, dirSize).fileInfo.None?
    ensures ExistsSpec(m, p, dirSize).fileInfo.Some?
  {
  }

  // --- sorting ----------------------------------------------------------------

  /** Inserting an entry into a listing sorted by name. */
  function InsertByName(x: FileInfo, s: seq<FileInfo>): (r: seq<FileInfo>)
    ensures multiset(r) == multiset(s) + multiset{x}
    ensures r != [] && (r[0] == x || (s != [] && r[0] == s[0]))
    ensures SortedByName(s) ==> SortedByName(r)
  {
    if s == [] then [x]
    else if StrLe(x.name, s[0].name) then [x] + s
    else
      StrLeTotal(x.name, s[0].name);
      var rest := InsertByName(x, s[1..]);
      assert s == [s[0]] + s[1..];
      [s[0]] + rest
  }

  /** `files.sort(key=lambda f: f.name)`, by insertion. */
  method SortByName(files: seq<FileInfo>) returns (sorted: seq<FileInfo>)
    ensures multiset(sorted) == multiset(files)
    ensures SortedByName(sorted)
  {
    sorted := [];
    var i := 0;
    while i < |files|
      invariant 0 <= i <= |files|
      invariant multiset(sorted) == multiset(files[..i])
      invariant SortedByName(sorted)
    {
      assert files[..i + 1] == files[..i] + [files[i]];
      sorted := InsertByName(files[i], sorted);
      i := i + 1;
    }
    assert files[..|files|] == files;
  }

  /** The loop of `initialize`: `mkdir(parents=True, exist_ok=True)` on each
      directory in turn, stopping at the first failure. */
  method MakeEach(fs: FileSystem, dirs: seq<Path>) returns (r: Outcome)
    requires fs.Valid()
    modifies fs
    ensures fs.Valid()
    ensures Made(r, fs.nodes) == EnsureDirs(old(fs.nodes), dirs)
  {
    var i := 0;
    while i < |dirs|
      invariant 0 <= i <= |dirs|
      invariant fs.Valid()
      invariant EnsureDirs(old(fs.nodes), dirs[..i]) == Made(Pass, fs.nodes)
    {
      assert dirs[..i + 1] == dirs[..i] + [dirs[i]];
      EnsureDirsSnoc(old(fs.nodes), dirs[..i], dirs[i]);
      r := fs.MakeDirs(dirs[i]);
      if r.Fail? {
        EnsureDirsStops(old(fs.nodes), dirs, i + 1);
        return;
      }
      i := i + 1;
    }
    assert dirs[..i] == dirs;
    return Pass;
  }

  // --- the tool ----------------------------------------------------------------

  /** `FileManagerTool`, working on the file system `fs`. The codec
      registry and the size reported for directories belong to the
      environment and are fixed when the tool is built. */
  class FileManagerTool {
    var initialized: bool
    const fs: FileSystem
    /** `_safe_directories`, `ALLOWED_WRITE_PATHS`, `_allowed_extensions`,
        `_blocked_extensions` and the working directory. */
    const sandbox: Sandbox
    const codecs: Codecs
    const dirSize: nat

    ghost predicate Valid()
      reads this, fs
    {
      fs.Valid() && WellFormed(sandbox)
    }

    constructor (fs: FileSystem, base: Path, cwd: Path, codecs: Codecs, dirSize: nat)
      requires fs.Valid() && Canonical(cwd) && NulFree(cwd)
      ensures Valid() && !initialized
      ensures this.fs == fs && sandbox == Configured(base, cwd)
      ensures this.codecs == codecs && this.dirSize == dirSize
    {
      initialized := false;
      this.fs := fs;
      sandbox := Configured(base, cwd);
      this.codecs := codecs;
      this.dirSize := dirSize;
    }

    /** `initialize`: make every safe directory; a failure propagates and
        leaves the tool uninitialised. */
    method Initialize() returns (r: Outcome)
      requires Valid()
      modifies this, fs
      ensures Valid()
      ensures old(initialized) ==> r.Pass? && fs.nodes == old(fs.nodes) && initialized
      ensures !old(initialized) ==> Made(r, fs.nodes) == EnsureDirs(old(fs.nodes), sandbox.safeDirectories)
      ensures !old(initialized) ==> initialized == r.Pass?
    {
      if initialized {
        return Pass;
      }
      r := MakeEach(fs, sandbox.safeDirectories);
      initialized := r.Pass?;
    }

    /** `_is_path_safe` and `_is_write_allowed`: the first directory the
        path lies in ends the search. */
    method UnderAny(p: Path, dirs: seq<Path>) returns (found: bool)
      ensures found <==> Under(p, dirs)
    {
      var i := 0;
      while i < |dirs|
        invariant 0 <= i <= |dirs|
        invariant forall j :: 0 <= j < i ==> !IsRelativeTo(p, dirs[j])
      {
        if |dirs[i]| <= |p| && p[..|dirs[i]|] == dirs[i] {
          return true;
        }
        i := i + 1;
      }
      return false;
    }

    /** `_validate_and_normalize_path`. */
    method ValidateAndNormalizePath(path: string, op: FileOperation) returns (r: Result<Path>)
      requires Valid()
      ensures r == CheckPath(sandbox, path, op)
    {
      if IsBlank(path) {
        return Err(EmptyPath);
      }
      var resolved := Resolve(sandbox.cwd, path);
      if resolved.Err? {
        return Err(InvalidFormat(resolved.error.message));
      }
      var u := resolved.value;
      assert CheckPath(sandbox, path, op) == CheckResolved(sandbox, u, op);
      var text := Render(u);
      if ContainsDotDot(text) || StartsWithDotDot(text) {
        return Err(Traversal);
      }
      var safe := UnderAny(u, sandbox.safeDirectories);
      if !safe {
        return Err(OutsideSafe);
      }
      if op == Write || op == Delete {
        var writable := UnderAny(u, sandbox.writePaths);
        if !writable {
          return Err(WriteDenied(u));
        }
      }
      var ext := Suffix(u);
      if ext != "" && !ExtensionAllowed(sandbox, ext) {
        return Err(ExtensionRefused(ext));
      }
      return Ok(u);
    }

    method ReadFile(p: Path, encoding: string) returns (r: Result<FileManagerResult>)
      requires Valid()
      ensures r == ReadSpec(fs.nodes, p, encoding, codecs)
    {
      if !fs.Exists(p) {
        return Err(Exception(FileNotFoundError, "File not found: " + Render(p)));
      }
      if !fs.IsFile(p) {
        return Err(Exception(ValueError, "Path is not a file: " + Render(p)));
      }
      var data := fs.nodes[p].data;
      if |data| > Config.MaxFileSize {
        return Err(Exception(ValueError, "File too large: " + IntToString(|data|) + " bytes (max: " + IntToString(Config.MaxFileSize) + ")"));
      }
      var decoded := codecs.decode(encoding, data);
      if decoded.Decoded? {
        var text := TranslateNewlines(decoded.text);
        return Ok(FileManagerResult(Read, Render(p), true, Some(text), None, None,
          "Successfully read file (" + CharCount(text) + " characters)"));
      }
      if decoded.DecoderUnknown? {
        return Err(UnknownEncoding(encoding));
      }
      var text := TranslateNewlines(Latin1(data));
      return Ok(FileManagerResult(Read, Render(p), true, Some(text), None, None,
        "Read with fallback encoding (" + CharCount(text) + " characters)"));
    }

    method WriteFile(p: Path, content: Option<string>, encoding: string) returns (r: Result<FileManagerResult>)
      requires Valid()
      modifies fs
      ensures Valid()
      ensures Step(r, fs.nodes) == WriteSpec(old(fs.nodes), p, content, encoding, codecs)
    {
      if content.None? {
        return Err(Exception(ValueError, "Content required for write operation"));
      }
      var encoded := codecs.encode(encoding, content.value);
      if encoded.EncoderUnknown? {
        return Err(UnknownEncoding(encoding));
      }
      if encoded.Unencodable? {
        return Err(Exception(UnicodeError, encoded.message));
      }
      if |encoded.bytes| > Config.MaxFileSize {
        return Err(Exception(ValueError, "Content too large: " + IntToString(|encoded.bytes|) + " bytes"));
      }
      var made := fs.MakeDirs(Parent(p));
      if made.Fail? {
        return Err(made.error);
      }
      var written := fs.WriteBytes(p, encoded.bytes);
      if written.Fail? {
        return Err(Exception(ValueError, "Failed to write file: " + written.error.message));
      }
      return Ok(Succeeded(Write, p, "Successfully wrote " + CharCount(content.value) + " characters to file"));
    }

    method ListDirectory(p: Path) returns (r: Result<FileManagerResult>)
      requires Valid()
      ensures ListSpec(fs.nodes, p, dirSize, r)
    {
      if !fs.Exists(p) {
        return Err(Exception(FileNotFoundError, "Directory not found: " + Render(p)));
      }
      if !fs.IsDir(p) {
        return Err(Exception(ValueError, "Path is not a directory: " + Render(p)));
      }
      var files := IterDir(fs.nodes, p, dirSize);
      var sorted := SortByName(files);
      ReorderedEnumeration(fs.nodes, p, dirSize, files, sorted);
      return Ok(FileManagerResult(List, Render(p), true, None, Some(sorted), None,
        "Found " + IntToString(|sorted|) + " items in directory"));
    }

    method CheckExists(p: Path) returns (r: FileManagerResult)
      requires Valid()
      ensures r == ExistsSpec(fs.nodes, p, dirSize)
    {
      var present := fs.Exists(p);
      var info: Option<FileInfo> := None;
      if present {
        info := Some(InfoOf(fs.nodes, p, dirSize));
      }
      return FileManagerResult(Exists, Render(p), true, None, None, info,
        if present then "Path exists" else "Path does not exist");
    }

    method DeleteFile(p: Path) returns (r: Result<FileManagerResult>)
      requires Valid()
      modifies fs
      ensures Valid()
      ensures Step(r, fs.nodes) == DeleteSpec(old(fs.nodes), p)
    {
      if !fs.Exists(p) {
        return Err(Exception(FileNotFoundError, "Path not found: " + Render(p)));
      }
      if fs.IsFile(p) {
        var unlinked := fs.Unlink(p);
        return Ok(Succeeded(Delete, p, "File deleted successfully"));
      }
      if ChildNames(fs.nodes, p) != {} {
        return Err(Exception(ValueError, "Failed to delete: Directory not empty (safety restriction)"));
      }
      var removed := fs.Rmdir(p);
      if removed.Fail? {
        return Err(Exception(ValueError, "Failed to delete: " + removed.error.message));
      }
      return Ok(Succeeded(Delete, p, "Empty directory deleted successfully"));
    }

    /** `execute_operation`: initialise if needed, check the path (errors
        propagate), run the operation (errors become a failed result). */
    method ExecuteOperation(op: FileOperation, path: string, content: Option<string>, encoding: string)
      returns (r: Result<FileManagerResult>)
      requires Valid()
      modifies this, fs
      ensures Valid()
      ensures var init := if old(initialized) then Made(Pass, old(fs.nodes))
                          else EnsureDirs(old(fs.nodes), sandbox.safeDirectories);
        && initialized == init.outcome.Pass?
        && (init.outcome.Fail? ==> r == Err(init.outcome.error) && fs.nodes == init.nodes)
        && (init.outcome.Pass? && CheckPath(sandbox, path, op).Err? ==>
              r == Err(CheckPath(sandbox, path, op).error) && fs.nodes == init.nodes)
        && (init.outcome.Pass? && CheckPath(sandbox, path, op).Ok? ==>
              exists inner :: Performed(op, init.nodes, fs.nodes, CheckPath(sandbox, path, op).value,
                                        content, encoding, codecs, dirSize, inner)
                && r == Ok(Wrap(op, path, inner)))
    {
      if !initialized {
        var ready := Initialize();
        if ready.Fail? {
          return Err(ready.error);
        }
      }
      ghost var start := fs.nodes;
      var checked := ValidateAndNormalizePath(path, op);
      if checked.Err? {
        return Err(checked.error);
      }
      var p := checked.value;
      var inner: Result<FileManagerResult>;
      match op {
        case Read => inner := ReadFile(p, encoding);
        case Write => inner := WriteFile(p, content, encoding);
        case List => inner := ListDirectory(p);
        case Exists =>
          var found := CheckExists(p);
          inner := Ok(found);
        case Delete => inner := DeleteFile(p);
      }
      assert Performed(op, start, fs.nodes, p, content, encoding, codecs, dirSize, inner);
      return Ok(Wrap(op, path, inner));
    }
  }

  /** A name in the children of `p` names an entry. */
  lemma ChildIn(m: map<Path, Node>, p: Path, n: string)
    requires n in ChildNames(m, p)
    ensures p + [n] in m
  {
    var q :| q in m && |q| == |p| + 1 && q[..|p|] == p && q[|p|] == n;
    assert q == p + [n];
  }
}
