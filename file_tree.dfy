/** The repository on disk, as the scorecard sees it, and the walk over it.

    A `Tree` lists every file and directory below the root, in the order the
    recursive enumeration (`Path.rglob("*")`) produces them; that order also
    stands in for the order of each directory listing (`Path.iterdir()`).
    Paths are relative component sequences; the root's own components are kept
    so that tests on absolute path parts see them. */
module FileTree {
  import opened Seqs
  import opened Text

  /** One directory entry. `isFile` is false for a directory. `content` is the
      file's text, or None when reading it fails with an OS error. */
  datatype Entry = Entry(path: seq<string>, isFile: bool, content: Option<string>)

  /** `root`: components of the resolved root directory. `entries`: everything
      below it, in enumeration order. `walkDeniedAt`: when Some(k), the recursive
      enumeration raises PermissionError instead of yielding `entries[k]`. */
  datatype Tree = Tree(root: seq<string>, entries: seq<Entry>, walkDeniedAt: Option<nat>)

  /** What a real directory tree guarantees: every entry has a non-empty
      relative path made of non-empty names. */
  ghost predicate WellFormed(fs: Tree)
  {
    forall e :: e in fs.entries ==>
      |e.path| > 0 && forall i :: 0 <= i < |e.path| ==> e.path[i] != ""
  }

  /** Directory names that the walk never enters. */
  const IgnoredDirs: set<string> := {".git", "node_modules", "bin", "obj", "dist", "build", ".venv"}

  /** Bytes read from a file when searching it for a marker string. */
  const MaxReadBytes: nat := 64 * 1024

  /** `Path.name`: the last component. */
  function Name(e: Entry): string
  {
    if e.path == [] then "" else e.path[|e.path| - 1]
  }

  /** `str.rfind(c)`: the last index of `c` in `s`, or -1. */
  function LastIndexOf(s: string, c: char): (r: int)
    ensures -1 <= r < |s|
  {
    if s == [] then -1
    else if s[|s| - 1] == c then |s| - 1
    else LastIndexOf(s[..|s| - 1], c)
  }

  /** LastIndexOf finds the last occurrence, and -1 means there is none. */
  lemma {:induction false} LastIndexOfIsLast(s: string, c: char)
    ensures LastIndexOf(s, c) >= 0 ==> s[LastIndexOf(s, c)] == c
    ensures forall j :: LastIndexOf(s, c) < j < |s| ==> s[j] != c
  {
    if s != [] && s[|s| - 1] != c {
      LastIndexOfIsLast(s[..|s| - 1], c);
    }
  }

  /** `PurePath.suffix` of a name: from its last dot on, unless that dot is the
      first or the last character. */
  function Suffix(name: string): string
  {
    var i := LastIndexOf(name, '.');
    if 0 < i < |name| - 1 then name[i..] else ""
  }

  /** `PurePath.stem` of a name: the name without its suffix. */
  function Stem(name: string): string
  {
    var i := LastIndexOf(name, '.');
    if 0 < i < |name| - 1 then name[..i] else name
  }

  /** A non-empty suffix is a dot, then at least one character and no further
      dot; it is never the whole name; and the stem and the suffix put back
      together give the name. */
  lemma SuffixShape(name: string)
    ensures var x := Suffix(name);
      x != "" ==> x[0] == '.' && |x| >= 2 && |x| < |name| && forall j :: 0 < j < |x| ==> x[j] != '.'
    ensures Stem(name) + Suffix(name) == name
  {
    LastIndexOfIsLast(name, '.');
    var i := LastIndexOf(name, '.');
    if 0 < i < |name| - 1 {
      assert name[..i] + name[i..] == name;
    }
  }

  /** The entry stored at `path`, if any (the first one, should there be several). */
  function Lookup(fs: Tree, path: seq<string>): (r: Option<Entry>)
    ensures r.Some? ==> r.value in fs.entries && r.value.path == path
  {
    match FindFirst(fs.entries, (e: Entry) => e.path == path)
    case Some(k) => Some(fs.entries[k])
    case None => None
  }

  /** Lookup fails exactly when no entry has the path. */
  lemma LookupMissing(fs: Tree, path: seq<string>)
    ensures Lookup(fs, path).None? <==> forall e :: e in fs.entries ==> e.path != path
  {
    var p := (e: Entry) => e.path == path;
    if Lookup(fs, path).None? {
      forall e | e in fs.entries ensures e.path != path {
        var i :| 0 <= i < |fs.entries| && fs.entries[i] == e;
        assert !p(fs.entries[i]);
      }
    }
  }

  /** `(root / path).is_file()`. */
  predicate IsFile(fs: Tree, path: seq<string>)
  {
    Lookup(fs, path).Some? && Lookup(fs, path).value.isFile
  }

  /** `(root / path).is_dir()`. */
  predicate IsDir(fs: Tree, path: seq<string>)
  {
    Lookup(fs, path).Some? && !Lookup(fs, path).value.isFile
  }

  /** `(root / path).read_text()`: None when the file is missing or unreadable. */
  function ReadFile(fs: Tree, path: seq<string>): Option<string>
  {
    if IsFile(fs, path) then Lookup(fs, path).value.content else None
  }

  function ChildOf(dir: seq<string>): Entry -> bool
  {
    (e: Entry) => |e.path| == |dir| + 1 && e.path[..|dir|] == dir
  }

  /** `(root / dir).iterdir()`: the entries directly inside `dir`, in listing order. */
  function Children(fs: Tree, dir: seq<string>): seq<Entry>
  {
    Filter(fs.entries, ChildOf(dir))
  }

  /** The listing holds exactly the entries one level below `dir`. */
  lemma ChildrenAreChildren(fs: Tree, dir: seq<string>)
    ensures forall e :: e in Children(fs, dir) <==> e in fs.entries && |e.path| == |dir| + 1 && e.path[..|dir|] == dir
  {
    var r := Children(fs, dir);
    FilterMembers(fs.entries, ChildOf(dir));
    forall e | e in r ensures e in fs.entries && ChildOf(dir)(e) {
      var i :| 0 <= i < |r| && r[i] == e;
    }
    forall e | e in fs.entries && ChildOf(dir)(e) ensures e in r {
      var i :| 0 <= i < |fs.entries| && fs.entries[i] == e;
    }
  }

  /** `root.iterdir()`. */
  function TopLevel(fs: Tree): seq<Entry>
  {
    Children(fs, [])
  }

  /** The top-level listing holds exactly the entries with one-component paths. */
  lemma TopLevelMembers(fs: Tree)
    ensures forall e :: e in TopLevel(fs) <==> e in fs.entries && |e.path| == 1
  {
    ChildrenAreChildren(fs, []);
    forall e | e in fs.entries && |e.path| == 1 ensures e in TopLevel(fs) {
      assert e.path[..0] == [];
    }
  }

  /** `any(part in parts for part in IGNORED_DIRS)`. */
  predicate HasIgnoredPart(parts: seq<string>)
  {
    exists i :: 0 <= i < |parts| && parts[i] in IgnoredDirs
  }

  /** The walk keeps an enumerated entry when it is a file and no component of
      its ABSOLUTE path (root included) is an ignored directory name. */
  function KeptByWalk(root: seq<string>): Entry -> bool
  {
    (e: Entry) => e.isFile && !HasIgnoredPart(root + e.path)
  }

  /** What the recursive enumeration yields before it stops. */
  function Enumerated(fs: Tree): (r: seq<Entry>)
    ensures r <= fs.entries
  {
    match fs.walkDeniedAt
    case Some(k) => if k < |fs.entries| then fs.entries[..k] else fs.entries
    case None => fs.entries
  }

  /** The result of `walk_repo(root)`: only files of the tree, none of them
      below an ignored directory. */
  function Walk(fs: Tree): seq<Entry>
  {
    Filter(Enumerated(fs), KeptByWalk(fs.root))
  }

  /** Every walked entry is a file of the tree outside the ignored directories. */
  lemma WalkSound(fs: Tree)
    ensures forall i :: 0 <= i < |Walk(fs)| ==>
      Walk(fs)[i] in fs.entries && Walk(fs)[i].isFile && !HasIgnoredPart(fs.root + Walk(fs)[i].path)
  {
    var s := Enumerated(fs);
    FilterMembers(s, KeptByWalk(fs.root));
    forall e | e in s ensures e in fs.entries {
      var i :| 0 <= i < |s| && s[i] == e;
      assert fs.entries[i] == e;
    }
  }

  /** `walk_repo`: enumerate everything, keep the files outside ignored
      directories, and stop (keeping what was gathered) when the enumeration
      raises PermissionError. */
  method WalkRepo(fs: Tree) returns (paths: seq<Entry>)
    ensures paths == Walk(fs)
  {
    paths := [];
    var i := 0;
    while i < |fs.entries|
      invariant 0 <= i <= |fs.entries|
      invariant fs.walkDeniedAt.Some? ==> i <= fs.walkDeniedAt.value
      invariant paths == Filter(fs.entries[..i], KeptByWalk(fs.root))
    {
      if fs.walkDeniedAt == Some(i) {
        break;
      }
      var p := fs.entries[i];
      WalkStep(fs, i);
      i := i + 1;
      if !p.isFile {
        continue;
      }
      if HasIgnoredPart(fs.root + p.path) {
        continue;
      }
      paths := paths + [p];
    }
    WalkPrefix(fs, i);
  }

  /** One more enumerated entry adds itself to the walk exactly when it is a
      file outside the ignored directories. */
  lemma WalkStep(fs: Tree, i: nat)
    requires i < |fs.entries|
    ensures var p := fs.entries[i];
      Filter(fs.entries[..i + 1], KeptByWalk(fs.root)) ==
      Filter(fs.entries[..i], KeptByWalk(fs.root)) + (if p.isFile && !HasIgnoredPart(fs.root + p.path) then [p] else [])
  {
    assert fs.entries[..i + 1] == fs.entries[..i] + [fs.entries[i]];
    FilterSnoc(fs.entries[..i], fs.entries[i], KeptByWalk(fs.root));
  }

  /** Where the loop of `walk_repo` stops, the entries it has seen are those
      the enumeration yields. */
  lemma WalkPrefix(fs: Tree, i: nat)
    requires i <= |fs.entries|
    requires fs.walkDeniedAt.Some? ==> i <= fs.walkDeniedAt.value
    requires i < |fs.entries| ==> fs.walkDeniedAt == Some(i)
    ensures fs.entries[..i] == Enumerated(fs)
  {
    if i == |fs.entries| {
      assert fs.entries[..i] == fs.entries;
    }
  }

  /** Without a permission failure the walk misses nothing: every file of the
      tree outside the ignored directories is returned. */
  lemma WalkComplete(fs: Tree)
    requires fs.walkDeniedAt.None?
    ensures forall e :: e in fs.entries && e.isFile && !HasIgnoredPart(fs.root + e.path) ==> e in Walk(fs)
  {
    var s, p := Enumerated(fs), KeptByWalk(fs.root);
    FilterMembers(s, p);
    forall e | e in fs.entries && p(e) ensures e in Walk(fs) {
      var i :| 0 <= i < |s| && s[i] == e;
    }
  }

  /** A permission failure only cuts the walk short: what it returns is a prefix
      of what the same enumeration would return without the failure. */
  lemma WalkDeniedIsPrefix(fs: Tree)
    ensures Walk(fs) <= Walk(fs.(walkDeniedAt := None))
  {
    var s := fs.entries;
    if fs.walkDeniedAt.Some? && fs.walkDeniedAt.value < |s| {
      FilterPrefix(s, fs.walkDeniedAt.value, KeptByWalk(fs.root));
    }
  }
}
