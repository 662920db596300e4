/** The part of the operating system's file system the file manager uses:
    regular files holding bytes and directories, addressed by resolved
    paths. Symbolic links, permissions, timestamps and special files are
    not modelled.

    The file system is one mutable object; its state is a map from path to
    node, and a well-formed state is a tree: the root is a directory and
    every other entry sits in a directory that exists. */
module FileSystem {
  import opened Outcomes
  import opened Text
  import opened Paths

  type Byte = b: int | 0 <= b < 256

  datatype Node = File(data: seq<Byte>) | Dir

  predicate TreeShaped(m: map<Path, Node>) {
    && [] in m && m[[]] == Dir
    && forall p {:trigger Parent(p)} :: p in m && p != [] ==> Parent(p) in m && m[Parent(p)] == Dir
  }

  /** In a tree every ancestor of an entry is a directory. */
  lemma {:induction false} AncestorsAreDirs(m: map<Path, Node>, p: Path, k: nat)
    requires TreeShaped(m) && p in m && k < |p|
    ensures p[..k] in m && m[p[..k]] == Dir
    decreases |p| - k
  {
    var q := Parent(p);
    assert q in m && m[q] == Dir;
    assert q == p[..|p| - 1];
    if k < |q| {
      AncestorsAreDirs(m, q, k);
      assert q[..k] == p[..k];
    }
  }

  /** No prefix of `p`, `p` included, is a regular file: the condition
      under which `mkdir(parents=True, exist_ok=True)` succeeds. */
  predicate NoFileOnWay(m: map<Path, Node>, p: Path) {
    forall k :: 0 <= k <= |p| ==> !(p[..k] in m && m[p[..k]].File?)
  }

  /** The state after creating every missing directory on the way to `p`. */
  function AddDirs(m: map<Path, Node>, p: Path, upTo: nat): map<Path, Node>
    requires upTo <= |p| + 1
  {
    if upTo == 0 then m else AddDirs(m, p, upTo - 1)[p[..upTo - 1] := Dir]
  }

  /** Making directories adds entries and never removes or replaces a
      directory that was there. */
  lemma {:induction false} AddDirsEntries(m: map<Path, Node>, p: Path, upTo: nat)
    requires upTo <= |p| + 1
    ensures forall q :: q in m ==> q in AddDirs(m, p, upTo)
    ensures forall j :: 0 <= j < upTo ==> p[..j] in AddDirs(m, p, upTo) && AddDirs(m, p, upTo)[p[..j]] == Dir
    ensures forall q :: q in m && |q| >= upTo ==> AddDirs(m, p, upTo)[q] == m[q]
    ensures forall q :: q in AddDirs(m, p, upTo) && |q| >= upTo ==> q in m
    ensures forall q :: q in m && m[q] == Dir ==> AddDirs(m, p, upTo)[q] == Dir
  {
    if upTo > 0 {
      AddDirsEntries(m, p, upTo - 1);
    }
  }

  /** Adding a directory whose parent is a directory keeps the tree. */
  lemma InsertDirKeepsTree(m: map<Path, Node>, q: Path)
    requires TreeShaped(m)
    requires q != [] ==> Parent(q) in m && m[Parent(q)] == Dir
    ensures TreeShaped(m[q := Dir])
  {
  }

  /** The first regular file on the way to `p` sits below directories
      only, so nothing has been created yet; and when it is a proper
      ancestor, `p` itself cannot exist. */
  lemma BlockedByFile(m: map<Path, Node>, p: Path, k: nat)
    requires TreeShaped(m) && k <= |p|
    requires forall j :: 0 <= j < k ==> !(p[..j] in m && m[p[..j]].File?)
    requires p[..k] in AddDirs(m, p, k) && AddDirs(m, p, k)[p[..k]].File?
    ensures AddDirs(m, p, k) == m
    ensures p[..k] in m && m[p[..k]].File?
    ensures k < |p| ==> p !in m
    ensures k == |p| ==> p in m
  {
    var q := p[..k];
    AddDirsEntries(m, p, k);
    assert q in m && m[q].File?;
    forall j | 0 <= j < k
      ensures p[..j] in m && m[p[..j]] == Dir
    {
      AncestorsAreDirs(m, q, j);
      assert q[..j] == p[..j];
    }
    UnchangedWhenPresent(m, p, k);
    if k < |p| && p in m {
      AncestorsAreDirs(m, p, k);
    }
    assert k == |p| ==> q == p;
  }

  /** Adding directories that are already there changes nothing. */
  lemma {:induction false} UnchangedWhenPresent(m: map<Path, Node>, p: Path, k: nat)
    requires k <= |p| + 1
    requires forall j :: 0 <= j < k ==> p[..j] in m && m[p[..j]] == Dir
    ensures AddDirs(m, p, k) == m
  {
    if k > 0 {
      UnchangedWhenPresent(m, p, k - 1);
    }
  }

  /** When the target is a directory once its parents are made, it was one
      before, so its parents were there already and nothing was made. */
  lemma {:induction false} DirTargetMakesNothing(m: map<Path, Node>, p: Path)
    requires TreeShaped(m)
    requires var n := AddDirs(m, Parent(p), |Parent(p)| + 1); p in n && n[p] == Dir
    ensures AddDirs(m, Parent(p), |Parent(p)| + 1) == m
  {
    var q := Parent(p);
    AddDirsEntries(m, q, |q| + 1);
    if p == [] {
      UnchangedWhenPresent(m, q, 1);
    } else {
      assert p in m;
      forall j | 0 <= j < |q| + 1
        ensures q[..j] in m && m[q[..j]] == Dir
      {
        AncestorsAreDirs(m, p, j);
        assert q[..j] == p[..j];
      }
      UnchangedWhenPresent(m, q, |q| + 1);
    }
  }

  /** What `mkdir(parents=True, exist_ok=True)` does to a state: the
      outcome and the state after it. */
  datatype Made = Made(outcome: Outcome, nodes: map<Path, Node>)

  function MkdirParents(m: map<Path, Node>, p: Path): (r: Made)
    requires TreeShaped(m)
    ensures TreeShaped(r.nodes)
    ensures r.outcome.Pass? ==> p in r.nodes && r.nodes[p] == Dir
    ensures forall q :: q in m && m[q] == Dir ==> q in r.nodes && r.nodes[q] == Dir
  {
    if NoFileOnWay(m, p) then
      AddDirsTree(m, p, |p| + 1);
      AddDirsEntries(m, p, |p| + 1);
      assert p[..|p|] == p;
      Made(Pass, AddDirs(m, p, |p| + 1))
    else Made(Fail(if p in m then FileExists(p) else NotADirectory(p)), m)
  }

  lemma {:induction false} AddDirsTree(m: map<Path, Node>, p: Path, k: nat)
    requires TreeShaped(m) && k <= |p| + 1
    requires forall j :: 0 <= j < k ==> !(p[..j] in m && m[p[..j]].File?)
    ensures TreeShaped(AddDirs(m, p, k))
  {
    if k > 0 {
      AddDirsTree(m, p, k - 1);
      AddDirsEntries(m, p, k - 1);
      var q := p[..k - 1];
      if k > 1 {
        assert Parent(q) == p[..k - 2];
      }
      InsertDirKeepsTree(AddDirs(m, p, k - 1), q);
    }
  }

  /** The names directly inside `p`. */
  function ChildNames(m: map<Path, Node>, p: Path): set<string> {
    set q | q in m && |q| == |p| + 1 && q[..|p|] == p :: q[|p|]
  }

  /** Every entry other than the root is listed in its parent. */
  lemma ChildName(m: map<Path, Node>, q: Path)
    requires q in m && q != []
    ensures Name(q) in ChildNames(m, Parent(q))
  {
    var p := Parent(q);
    assert |q| == |p| + 1 && q[..|p|] == p && q[|p|] == Name(q);
  }

  /** `str(OSError)` for an error raised about one path. */
  function OsError(errno: nat, text: string, p: Path): Exception {
    Exception(OSError, "[Errno " + NatToString(errno) + "] " + text + ": '" + Render(p) + "'")
  }

  function NoSuchFile(p: Path): Exception { OsError(2, "No such file or directory", p) }
  function FileExists(p: Path): Exception { OsError(17, "File exists", p) }
  function NotADirectory(p: Path): Exception { OsError(20, "Not a directory", p) }
  function IsADirectory(p: Path): Exception { OsError(21, "Is a directory", p) }
  function DirectoryNotEmpty(p: Path): Exception { OsError(39, "Directory not empty", p) }
  function Busy(p: Path): Exception { OsError(16, "Device or resource busy", p) }

  class FileSystem {
    var nodes: map<Path, Node>

    ghost predicate Valid()
      reads this
    {
      TreeShaped(nodes)
    }

    constructor (initial: map<Path, Node>)
      requires TreeShaped(initial)
      ensures Valid() && nodes == initial
    {
      nodes := initial;
    }

    predicate Exists(p: Path)
      reads this
    {
      p in nodes
    }

    predicate IsFile(p: Path)
      reads this
    {
      p in nodes && nodes[p].File?
    }

    predicate IsDir(p: Path)
      reads this
    {
      p in nodes && nodes[p] == Dir
    }

    /** `path.mkdir(parents=True, exist_ok=True)`: creates the missing
        directories from the top down. It fails, changing nothing, when `p`
        or one of its ancestors is a regular file. */
    method MakeDirs(p: Path) returns (r: Outcome)
      requires Valid()
      modifies this
      ensures Valid()
      ensures r.Pass? <==> NoFileOnWay(old(nodes), p)
      ensures r.Pass? ==> nodes == AddDirs(old(nodes), p, |p| + 1) && IsDir(p)
      ensures r.Fail? ==> nodes == old(nodes)
      ensures r.Fail? ==> r.error == if p in old(nodes) then FileExists(p) else NotADirectory(p)
      ensures Made(r, nodes) == MkdirParents(old(nodes), p)
    {
      var k := 0;
      while k <= |p|
        invariant 0 <= k <= |p| + 1
        invariant forall j :: 0 <= j < k ==> !(p[..j] in old(nodes) && old(nodes)[p[..j]].File?)
        invariant nodes == AddDirs(old(nodes), p, k)
        invariant TreeShaped(nodes)
        invariant k > 0 ==> p[..k - 1] in nodes && nodes[p[..k - 1]] == Dir
      {
        var q := p[..k];
        if q in nodes && nodes[q].File? {
          BlockedByFile(old(nodes), p, k);
          if k < |p| {
            return Fail(NotADirectory(p));
          }
          return Fail(FileExists(p));
        }
        AddDirsEntries(old(nodes), p, k);
        if k > 0 {
          assert Parent(q) == p[..k - 1];
        }
        InsertDirKeepsTree(nodes, q);
        nodes := nodes[q := Dir];
        k := k + 1;
      }
      assert p[..|p|] == p;
      return Pass;
    }

    /** `path.write_text(...)` once the text is encoded: creates or
        truncates a regular file inside an existing directory. */
    method WriteBytes(p: Path, data: seq<Byte>) returns (r: Outcome)
      requires Valid()
      modifies this
      ensures Valid()
      ensures old(IsDir(p)) ==> r == Fail(IsADirectory(p))
      ensures !old(IsDir(p)) && Parent(p) !in old(nodes) ==> r == Fail(NoSuchFile(p))
      ensures !old(IsDir(p)) && Parent(p) in old(nodes) && old(nodes)[Parent(p)].File? ==> r == Fail(NotADirectory(p))
      ensures r.Pass? <==> !old(IsDir(p)) && Parent(p) in old(nodes) && old(nodes)[Parent(p)] == Dir
      ensures r.Pass? ==> nodes == old(nodes)[p := File(data)]
      ensures r.Fail? ==> nodes == old(nodes)
    {
      if p in nodes && nodes[p] == Dir {
        return Fail(IsADirectory(p));
      }
      var parent := Parent(p);
      if parent !in nodes {
        return Fail(NoSuchFile(p));
      }
      if nodes[parent].File? {
        return Fail(NotADirectory(p));
      }
      nodes := nodes[p := File(data)];
      return Pass;
    }

    /** `path.unlink()`: removes a regular file. */
    method Unlink(p: Path) returns (r: Outcome)
      requires Valid()
      modifies this
      ensures Valid()
      ensures old(IsFile(p)) <==> r.Pass?
      ensures r.Pass? ==> nodes == old(nodes) - {p}
      ensures !old(Exists(p)) ==> r == Fail(NoSuchFile(p))
      ensures old(IsDir(p)) ==> r == Fail(IsADirectory(p))
      ensures r.Fail? ==> nodes == old(nodes)
    {
      if p !in nodes {
        return Fail(NoSuchFile(p));
      }
      if nodes[p] == Dir {
        return Fail(IsADirectory(p));
      }
      ghost var m := nodes;
      nodes := nodes - {p};
      forall q | q in nodes && q != []
        ensures Parent(q) in nodes && nodes[Parent(q)] == Dir
      {
        assert Parent(q) in m && m[Parent(q)] == Dir;
      }
      return Pass;
    }

    /** `path.rmdir()`: removes an empty directory other than the root. */
    method Rmdir(p: Path) returns (r: Outcome)
      requires Valid()
      modifies this
      ensures Valid()
      ensures r.Pass? <==> old(IsDir(p)) && p != [] && ChildNames(old(nodes), p) == {}
      ensures r.Pass? ==> nodes == old(nodes) - {p}
      ensures !old(Exists(p)) ==> r == Fail(NoSuchFile(p))
      ensures old(IsFile(p)) ==> r == Fail(NotADirectory(p))
      ensures old(IsDir(p)) && p == [] ==> r == Fail(Busy(p))
      ensures old(IsDir(p)) && p != [] && ChildNames(old(nodes), p) != {} ==> r == Fail(DirectoryNotEmpty(p))
      ensures r.Fail? ==> nodes == old(nodes)
    {
      if p !in nodes {
        return Fail(NoSuchFile(p));
      }
      if nodes[p].File? {
        return Fail(NotADirectory(p));
      }
      if p == [] {
        return Fail(Busy(p));
      }
      if ChildNames(nodes, p) != {} {
        return Fail(DirectoryNotEmpty(p));
      }
      ghost var m := nodes;
      nodes := nodes - {p};
      forall q | q in nodes && q != []
        ensures Parent(q) in nodes && nodes[Parent(q)] == Dir
      {
        assert Parent(q) in m && m[Parent(q)] == Dir;
        ChildName(m, q);
      }
      return Pass;
    }
  }
}
