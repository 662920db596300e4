/** The part of `pathlib` the file manager relies on, for POSIX paths as
    Python 3.12 treats them: `Path(text).resolve()`, `str(path)`,
    `path.name`, `path.suffix`, `path.parent` and `path.is_relative_to`.

    A resolved path is the sequence of its components below the root; the
    root itself is `[]`. Resolution is lexical: the file system has no
    symbolic links in this model, so `..` simply drops the last component
    (and stays at the root). */
module Paths {
  import opened Outcomes
  import opened Text

  type Path = seq<string>

  /** `s.split("/")`. */
  function Segments(s: string): (r: seq<string>)
    ensures |r| >= 1
    ensures forall i :: 0 <= i < |r| ==> '/' !in r[i]
    decreases |s|
  {
    if s == [] then [""]
    else if s[0] == '/' then [""] + Segments(s[1..])
    else
      var rest := Segments(s[1..]);
      [[s[0]] + rest[0]] + rest[1..]
  }

  /** A segment that `Path(text)` keeps. */
  predicate IsPart(c: string) {
    c != "" && c != "." && '/' !in c
  }

  /** What `Path(text)` keeps of the text: the segments other than the
      empty ones (repeated or trailing slashes) and `.`. */
  function Parts(text: string): (r: seq<string>)
    ensures forall i :: 0 <= i < |r| ==> IsPart(r[i])
  {
    Kept(Segments(text))
  }

  function Kept(segs: seq<string>): (r: seq<string>)
    requires forall i :: 0 <= i < |segs| ==> '/' !in segs[i]
    ensures forall i :: 0 <= i < |r| ==> IsPart(r[i])
    ensures forall i :: 0 <= i < |r| ==> r[i] in segs
    ensures (forall i :: 0 <= i < |segs| ==> segs[i] != "" && segs[i] != ".") ==> r == segs
  {
    if segs == [] then []
    else if segs[0] == "" || segs[0] == "." then Kept(segs[1..])
    else [segs[0]] + Kept(segs[1..])
  }

  predicate IsAbsolute(text: string) {
    |text| > 0 && text[0] == '/'
  }

  /** A resolved path: every component is a plain name, none is `..`. */
  predicate Canonical(p: Path) {
    (forall i :: 0 <= i < |p| ==> IsPart(p[i])) && ".." !in p
  }

  predicate NulFree(p: seq<string>) {
    forall i :: 0 <= i < |p| ==> '\0' !in p[i]
  }

  /** `path.parent`; the root is its own parent. */
  function Parent(p: Path): (r: Path)
    ensures p != [] ==> r + [p[|p| - 1]] == p
    ensures p == [] ==> r == []
  {
    if p == [] then [] else p[..|p| - 1]
  }

  /** Lexical resolution of `parts` starting from the directory `dir`. */
  function Walk(dir: Path, parts: seq<string>): (r: Path)
    requires Canonical(dir)
    requires forall i :: 0 <= i < |parts| ==> IsPart(parts[i])
    ensures Canonical(r)
    ensures NulFree(dir) && NulFree(parts) ==> NulFree(r)
    decreases |parts|
  {
    if parts == [] then dir
    else if parts[0] == ".." then Walk(Parent(dir), parts[1..])
    else Walk(dir + [parts[0]], parts[1..])
  }

  /** Without `..`, resolution only descends: the result is the start
      directory followed by the parts. */
  lemma {:induction false} WalkForward(dir: Path, parts: seq<string>)
    requires Canonical(dir) && Canonical(parts)
    ensures Walk(dir, parts) == dir + parts
    decreases |parts|
  {
    if parts != [] {
      WalkForward(dir + [parts[0]], parts[1..]);
      assert dir + [parts[0]] + parts[1..] == dir + parts;
    }
  }

  /** `Path(text).resolve()` with `cwd` as the process's working directory.
      Every remaining component is looked up, and a NUL character in one of
      them makes the lookup raise `ValueError`. */
  function Resolve(cwd: Path, text: string): (r: Result<Path>)
    requires Canonical(cwd) && NulFree(cwd)
    ensures r.Err? <==> !NulFree(Parts(text))
    ensures r.Err? ==> r.error == Exception(ValueError, "embedded null byte")
    ensures r.Ok? ==> Canonical(r.value) && NulFree(r.value)
  {
    var parts := Parts(text);
    if !NulFree(parts) then Err(Exception(ValueError, "embedded null byte"))
    else Ok(Walk(if IsAbsolute(text) then [] else cwd, parts))
  }

  /** A relative path without `..` lands below the working directory. */
  lemma RelativeStaysBelow(cwd: Path, text: string)
    requires Canonical(cwd) && NulFree(cwd)
    requires !IsAbsolute(text) && ".." !in Parts(text) && NulFree(Parts(text))
    ensures Resolve(cwd, text) == Ok(cwd + Parts(text))
    ensures IsRelativeTo(Resolve(cwd, text).value, cwd)
  {
    WalkForward(cwd, Parts(text));
  }

  /** `str(path)`: the root is "/", any other path "/c1/c2/...". */
  function Render(p: Path): (s: string)
    ensures |s| > 0 && s[0] == '/'
  {
    if p == [] then "/" else RenderParts(p)
  }

  function RenderParts(p: Path): string {
    if p == [] then "" else "/" + p[0] + RenderParts(p[1..])
  }

  /** Splitting a name without a slash off the front of a text. */
  lemma {:induction false} SegmentsOfConcat(c: string, t: string)
    requires '/' !in c
    ensures Segments(c + t) == [c + Segments(t)[0]] + Segments(t)[1..]
    decreases |c|
  {
    if c != [] {
      assert (c + t)[0] == c[0] && (c + t)[1..] == c[1..] + t;
      SegmentsOfConcat(c[1..], t);
      assert [c[0]] + (c[1..] + Segments(t)[0]) == c + Segments(t)[0];
    } else {
      assert c + t == t;
      assert c + Segments(t)[0] == Segments(t)[0];
      assert Segments(t) == [Segments(t)[0]] + Segments(t)[1..];
    }
  }

  /** A leading slash splits off an empty segment. */
  lemma SegmentsOfSlash(t: string)
    ensures Segments("/" + t) == [""] + Segments(t)
  {
    assert ("/" + t)[1..] == t;
  }

  lemma {:induction false} SegmentsOfRenderParts(p: Path)
    requires forall i :: 0 <= i < |p| ==> '/' !in p[i]
    ensures Segments(RenderParts(p)) == [""] + p
    decreases |p|
  {
    if p != [] {
      var rest := RenderParts(p[1..]);
      SegmentsOfRenderParts(p[1..]);
      var s := "/" + (p[0] + rest);
      assert RenderParts(p) == s;
      SegmentsOfSlash(p[0] + rest);
      SegmentsOfConcat(p[0], rest);
      assert Segments(rest) == [""] + p[1..];
      assert Segments(p[0] + rest) == [p[0] + ""] + p[1..];
      assert p[0] + "" == p[0];
      assert [""] + ([p[0]] + p[1..]) == [""] + p;
    }
  }

  /** Reading back a rendered path gives its components again. */
  lemma RenderParts_RoundTrip(p: Path)
    requires Canonical(p)
    ensures IsAbsolute(Render(p)) && Parts(Render(p)) == p
  {
    if p == [] {
      assert Segments("/") == [""] + Segments("");
    } else {
      SegmentsOfRenderParts(p);
      assert Kept([""] + p) == Kept(p);
    }
  }

  /** Resolving a resolved path again changes nothing. */
  lemma ResolveIdempotent(cwd: Path, text: string)
    requires Canonical(cwd) && NulFree(cwd)
    requires Resolve(cwd, text).Ok?
    ensures Resolve(cwd, Render(Resolve(cwd, text).value)) == Resolve(cwd, text)
  {
    var p := Resolve(cwd, text).value;
    RenderParts_RoundTrip(p);
    WalkForward([], p);
    assert [] + p == p;
    assert Resolve(cwd, Render(p)) == Ok(Walk([], p));
  }

  /** The text of a path contains `..` exactly when one of its components
      does: the separators keep two dots of neighbouring components apart. */
  lemma {:induction false} RenderDotDot(p: Path)
    ensures ContainsDotDot(Render(p)) <==> exists i :: 0 <= i < |p| && ContainsDotDot(p[i])
  {
    if p == [] {
      assert !ContainsDotDot("/");
    } else {
      RenderPartsDotDot(p);
    }
  }

  lemma {:induction false} RenderPartsDotDot(p: Path)
    ensures ContainsDotDot(RenderParts(p)) <==> exists i :: 0 <= i < |p| && ContainsDotDot(p[i])
    ensures RenderParts(p) == [] || RenderParts(p)[0] == '/'
    decreases |p|
  {
    if p == [] {
      assert !ContainsDotDot("");
    } else {
      var rest := RenderParts(p[1..]);
      RenderPartsDotDot(p[1..]);
      DotDotConcat("/", p[0]);
      assert !ContainsDotDot("/");
      DotDotConcat("/" + p[0], rest);
      assert RenderParts(p) == ("/" + p[0]) + rest;
      if exists i :: 0 <= i < |p| && ContainsDotDot(p[i]) {
        var i :| 0 <= i < |p| && ContainsDotDot(p[i]);
        if i > 0 {
          assert ContainsDotDot(p[1..][i - 1]);
        }
      }
      if exists i :: 0 <= i < |p[1..]| && ContainsDotDot(p[1..][i]) {
        var i :| 0 <= i < |p[1..]| && ContainsDotDot(p[1..][i]);
        assert ContainsDotDot(p[i + 1]);
      }
    }
  }

  /** `path.is_relative_to(other)`: `other` is the path or one of its
      ancestors, compared component by component. */
  predicate IsRelativeTo(p: Path, other: Path) {
    |other| <= |p| && p[..|other|] == other
  }

  /** `path.name`: the last component, "" for the root. */
  function Name(p: Path): string {
    if p == [] then "" else p[|p| - 1]
  }

  /** `name.rfind(".")`. */
  function LastDot(s: string): (i: int)
    ensures -1 <= i < |s|
    ensures i >= 0 ==> s[i] == '.'
    ensures forall j :: i < j < |s| ==> s[j] != '.'
  {
    if s == [] then -1
    else if s[|s| - 1] == '.' then |s| - 1
    else LastDot(s[..|s| - 1])
  }

  /** `path.suffix`: from the last dot of the name, provided that dot is
      neither the name's first nor its last character. */
  function Suffix(p: Path): (x: string)
    ensures var n := Name(p);
      && (x != "" <==> (exists j :: 0 < j < |n| - 1 && n[j] == '.') && n[|n| - 1] != '.')
      && (x != "" ==> |x| >= 2 && x[0] == '.' && '.' !in x[1..])
      && (x != "" ==> |x| < |n| && n[|n| - |x|..] == x)
  {
    var n := Name(p);
    var i := LastDot(n);
    if 0 < i < |n| - 1 then n[i..] else ""
  }
}
