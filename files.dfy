// An abstract file system: a finite map from paths to entries, and the
// path arithmetic of pathlib that the commands rely on.
module Files {
  import opened Wrappers
  import opened Text

  /** A path split into its parent directory text and its final component. */
  datatype Path = Path(dir: string, name: string)

  /**
   * The two local ISO 8601 texts of an entry's modification time:
   * datetime.fromtimestamp(round(st_mtime)).isoformat() and
   * datetime.fromtimestamp(st_mtime).isoformat().
   */
  datatype MTime = MTime(rounded: string, exact: string)

  datatype Entry =
    | File(data: string, mtime: MTime)
    | Directory(mtime: MTime)

  type FsMap = map<Path, Entry>

  /** Path(s) for a string: everything after the last '/' is the name. */
  function PathOf(s: string): (p: Path)
    ensures '/' !in p.name
  {
    match LastIndexIn(s, '/', 0, |s|)
    case None => Path(".", s)
    case Some(j) =>
      Path(if j == 0 then "/" else s[..j], s[j + 1..])
  }

  /** str(p). */
  function PathText(p: Path): string
  {
    if p.dir == "." then p.name else if p.dir == "/" then "/" + p.name else p.dir + "/" + p.name
  }

  /** A path in the form PathOf produces. */
  predicate WellFormed(p: Path)
  {
    '/' !in p.name && p.dir != [] && (p.dir == "/" || p.dir[|p.dir| - 1] != '/')
  }

  lemma PathOfPathText(p: Path)
    requires WellFormed(p)
    ensures PathOf(PathText(p)) == p
  {
    var s := PathText(p);
    if p.dir == "." {
      assert LastIndexIn(s, '/', 0, |s|).None?;
    } else if p.dir == "/" {
      assert s[1..] == p.name;
      assert LastIndexIn(s, '/', 0, |s|) == Some(0);
    } else {
      var j := |p.dir|;
      assert s[..j] == p.dir && s[j] == '/' && s[j + 1..] == p.name;
      assert forall k :: j < k < |s| ==> s[k] != '/' by {
        forall k | j < k < |s| ensures s[k] != '/' { assert s[k] == p.name[k - j - 1]; }
      }
      assert LastIndexIn(s, '/', 0, |s|) == Some(j);
    }
  }

  /** path.with_name(name). */
  function WithName(p: Path, name: string): (q: Path)
    ensures q.dir == p.dir && q.name == name
  {
    Path(p.dir, name)
  }

  /** path.parent. */
  function Parent(p: Path): Path
  {
    PathOf(p.dir)
  }

  /** The paths at or below `root`: root itself and every entry whose directory lies inside it. */
  predicate Under(q: Path, root: Path)
  {
    q == root || q.dir == PathText(root) || StartsWith(q.dir, PathText(root) + "/")
  }

  /** The path below `dst` that corresponds to `q` below `src`: the part of its directory past `src` is kept. */
  function Rebased(q: Path, src: Path, dst: Path): (r: Path)
    requires Under(q, src) && q != src
    ensures Under(r, dst) && r.name == q.name
  {
    var suffix := q.dir[|PathText(src)|..];
    assert suffix != [] ==> suffix[0] == '/' by {
      if suffix != [] { assert q.dir[..|PathText(src)| + 1] == PathText(src) + "/"; }
    }
    var r := Path(PathText(dst) + suffix, q.name);
    assert suffix != [] ==> r.dir[..|PathText(dst)| + 1] == PathText(dst) + "/";
    r
  }

  /** Distinct paths below `src` go to distinct paths below `dst`. */
  lemma RebasedInjective(src: Path, dst: Path)
    ensures forall q1, q2 :: (Under(q1, src) && q1 != src && Under(q2, src) && q2 != src &&
      Rebased(q1, src, dst) == Rebased(q2, src, dst)) ==> q1 == q2
  {
    forall q1, q2 | Under(q1, src) && q1 != src && Under(q2, src) && q2 != src &&
      Rebased(q1, src, dst) == Rebased(q2, src, dst)
      ensures q1 == q2
    {
      var n := |PathText(src)|;
      var d := |PathText(dst)|;
      assert q1.dir[n..] == Rebased(q1, src, dst).dir[d..];
      assert q2.dir[n..] == Rebased(q2, src, dst).dir[d..];
      assert q1.dir == q1.dir[..n] + q1.dir[n..] && q2.dir == q2.dir[..n] + q2.dir[n..];
    }
  }

  /**
   * The entries after renaming `src` to `dst`: what lay at or below `dst` is replaced,
   * and `src` with everything below it reappears at `dst`.
   */
  function Moved(e: FsMap, src: Path, dst: Path): FsMap
    requires src in e
  {
    RebasedInjective(src, dst);
    var kept := map q | q in e && !Under(q, src) && !Under(q, dst) :: e[q];
    var below := map q | q in e && Under(q, src) && q != src :: Rebased(q, src, dst) := e[q];
    (kept + below)[dst := e[src]]
  }

  /** A path whose final component is a real name, not empty, "." or "..". */
  predicate Proper(p: Path)
  {
    WellFormed(p) && p.name != "" && p.name != "." && p.name != ".."
  }

  /** Nothing is lost by a rename, apart from what lay at or below the target. */
  lemma MovedKeeps(e: FsMap, src: Path, dst: Path)
    requires src in e && Proper(dst) && !Under(src, dst) && !Under(dst, src)
    ensures var r := Moved(e, src, dst);
      dst in r && r[dst] == e[src] && src !in r &&
      (forall q :: q in e && Under(q, src) && q != src ==> Rebased(q, src, dst) in r && r[Rebased(q, src, dst)] == e[q]) &&
      (forall q :: q in e && !Under(q, src) && !Under(q, dst) ==> q in r && r[q] == e[q])
  {
    RebasedInjective(src, dst);
  }

  /** The text of an OSError raised by os.rename, which names both paths. */
  function RenameError(what: string, src: Path, dst: Path): string { what + ": " + Repr(PathText(src)) + " -> " + Repr(PathText(dst)) }

  function InvalidMove(src: Path, dst: Path): string { RenameError("[Errno 22] Invalid argument", src, dst) }

  /** The paths that always exist without being recorded: the current directory and the root. */
  predicate Implicit(p: Path)
  {
    p == Path(".", ".") || p == Path("/", "")
  }

  /** Whether path.exists() holds: a recorded entry, the current directory or the root. */
  predicate Exists(fs: FsMap, p: Path)
  {
    p in fs || Implicit(p)
  }

  /** Whether path.is_dir() holds. */
  predicate IsDir(fs: FsMap, p: Path)
  {
    (p in fs && fs[p].Directory?) || Implicit(p)
  }

  /**
   * Path.rename on POSIX: the entry at `src`, with everything below it, moves to
   * `dst`, replacing what was there. A missing `src` or a missing directory of
   * `dst` raises FileNotFoundError, a file where that directory should be raises
   * NotADirectoryError, and moving a directory into itself raises OSError; no
   * error changes anything.
   */
  function RenameOutcome(e: FsMap, src: Path, dst: Path): (r: (Result<()>, FsMap))
    ensures r.0.Ok? <==> src in e && IsDir(e, Parent(dst)) && (src == dst || !Under(dst, src))
    ensures src !in e || !Exists(e, Parent(dst)) ==> r.0.Raise? && r.0.exc.kind == "FileNotFoundError"
    ensures src in e && Exists(e, Parent(dst)) && !IsDir(e, Parent(dst)) ==> r.0.Raise? && r.0.exc.kind == "NotADirectoryError"
    ensures src in e && IsDir(e, Parent(dst)) && src != dst && Under(dst, src) ==> r.0.Raise? && r.0.exc.kind == "OSError"
    ensures r.0.Raise? || src == dst ==> r.1 == e
    ensures r.0.Ok? && src != dst ==> r.1 == Moved(e, src, dst)
  {
    if src !in e || !Exists(e, Parent(dst)) then
      (Raise(Exception("FileNotFoundError", RenameError("[Errno 2] No such file or directory", src, dst))), e)
    else if !IsDir(e, Parent(dst)) then
      (Raise(Exception("NotADirectoryError", RenameError("[Errno 20] Not a directory", src, dst))), e)
    else if src == dst then (Ok(()), e)
    else if Under(dst, src) then (Raise(Exception("OSError", InvalidMove(src, dst))), e)
    else (Ok(()), Moved(e, src, dst))
  }

  /** Every entry lies inside a directory, as on a real file system. */
  predicate Rooted(e: FsMap)
  {
    forall q :: q in e ==> IsDir(e, Parent(q))
  }

  /** os.path.join(a, b) for a one-component b. */
  function JoinText(a: string, b: string): string
  {
    if a != [] && a[|a| - 1] == '/' then a + b else a + "/" + b
  }

  /** Where shutil.copy writes: into `dst` under the source's name when `dst` is a directory, otherwise `dst`. */
  function CopyTarget(e: FsMap, src: Path, dst: Path): Path
  {
    if IsDir(e, dst) then Path(PathText(dst), src.name) else dst
  }

  /** The text shutil.copy uses for that target in its messages. */
  function CopyTargetText(e: FsMap, src: Path, dst: Path): string
  {
    if IsDir(e, dst) then JoinText(PathText(dst), src.name) else PathText(dst)
  }

  /** The text of an OSError raised by open() or os.mkdir, which names one path. */
  function OpenError(what: string, text: string): string { what + ": " + Repr(text) }

  /**
   * shutil.copy(src, dst) on POSIX: a missing src raises FileNotFoundError, since
   * the same-file test is false when src cannot be looked up; a target that is
   * src itself raises SameFileError; opening src fails when it is a directory
   * (IsADirectoryError); opening the target for writing fails when it
   * is a directory (IsADirectoryError), when its directory is missing
   * (FileNotFoundError) or when that is a file (NotADirectoryError). On success
   * the target becomes a file with src's data and the time of the copy; no error
   * changes anything.
   */
  function CopyOutcome(e: FsMap, src: Path, dst: Path, mtime: MTime): (r: (Result<()>, FsMap))
    ensures var t := CopyTarget(e, src, dst);
      r.0.Ok? <==> t != src && src in e && !IsDir(e, src) && !IsDir(e, t) && IsDir(e, Parent(t))
    ensures var t := CopyTarget(e, src, dst);
      t == src && Exists(e, src) ==> r.0 == Raise(Exception("SameFileError",
        Repr(PathText(src)) + " and " + Repr(CopyTargetText(e, src, dst)) + " are the same file"))
    ensures !Exists(e, src) ==>
      r.0 == Raise(Exception("FileNotFoundError", OpenError("[Errno 2] No such file or directory", PathText(src))))
    ensures var t := CopyTarget(e, src, dst);
      t != src && Exists(e, src) && !IsDir(e, src) && IsDir(e, t) ==>
      r.0 == Raise(Exception("IsADirectoryError", OpenError("[Errno 21] Is a directory", CopyTargetText(e, src, dst))))
    ensures var t := CopyTarget(e, src, dst);
      t != src && Exists(e, src) && !IsDir(e, src) && !IsDir(e, t) && Exists(e, Parent(t)) && !IsDir(e, Parent(t)) ==>
      r.0 == Raise(Exception("NotADirectoryError", OpenError("[Errno 20] Not a directory", CopyTargetText(e, src, dst))))
    ensures r.0.Raise? ==> r.1 == e
    ensures r.0.Ok? ==> var t := CopyTarget(e, src, dst);
      t in r.1 && r.1[t] == File(e[src].data, mtime) && forall q :: q != t ==> (q in r.1 <==> q in e) && (q in e ==> r.1[q] == e[q])
  {
    var t := CopyTarget(e, src, dst);
    var text := CopyTargetText(e, src, dst);
    if !Exists(e, src) then
      (Raise(Exception("FileNotFoundError", OpenError("[Errno 2] No such file or directory", PathText(src)))), e)
    else if t == src then
      (Raise(Exception("SameFileError", Repr(PathText(src)) + " and " + Repr(text) + " are the same file")), e)
    else if IsDir(e, src) then
      (Raise(Exception("IsADirectoryError", OpenError("[Errno 21] Is a directory", PathText(src)))), e)
    else if IsDir(e, t) then
      (Raise(Exception("IsADirectoryError", OpenError("[Errno 21] Is a directory", text))), e)
    else if !Exists(e, Parent(t)) then
      (Raise(Exception("FileNotFoundError", OpenError("[Errno 2] No such file or directory", text))), e)
    else if !IsDir(e, Parent(t)) then
      (Raise(Exception("NotADirectoryError", OpenError("[Errno 20] Not a directory", text))), e)
    else (Ok(()), e[t := File(e[src].data, mtime)])
  }

  /** A successful copy leaves every entry inside a directory: it never writes over a directory or below a file. */
  lemma CopyKeepsRooted(e: FsMap, src: Path, dst: Path, mtime: MTime)
    requires Rooted(e)
    ensures Rooted(CopyOutcome(e, src, dst, mtime).1)
  {
    var r := CopyOutcome(e, src, dst, mtime);
    if r.0.Ok? {
      var t := CopyTarget(e, src, dst);
      forall q | q in r.1 ensures IsDir(r.1, Parent(q)) {
        if q != t {
          assert IsDir(e, Parent(q));
          assert Parent(q) != t;
        } else {
          assert Parent(t) != t;
        }
      }
    }
  }

  /** Copying /a/f into its own directory /a targets /a/f itself: SameFileError, and nothing changes. */
  lemma CopyIntoOwnDirectory(e: FsMap, now: MTime)
    requires Path("/", "a") in e && e[Path("/", "a")].Directory? && Path("/a", "f") in e
    ensures var r := CopyOutcome(e, Path("/a", "f"), Path("/", "a"), now);
      r.0.Raise? && r.0.exc.kind == "SameFileError" && r.1 == e
  {
    assert CopyTarget(e, Path("/a", "f"), Path("/", "a")) == Path("/a", "f");
  }

  /** Copying the file /f into /a when /a/f is a directory: that directory cannot be opened for writing. */
  lemma CopyOntoDirectory(e: FsMap, now: MTime)
    requires Path("/", "a") in e && e[Path("/", "a")].Directory? && Path("/a", "f") in e && e[Path("/a", "f")].Directory?
    requires Path("/", "f") in e && e[Path("/", "f")].File?
    ensures var r := CopyOutcome(e, Path("/", "f"), Path("/", "a"), now);
      r.0.Raise? && r.0.exc.kind == "IsADirectoryError" && r.1 == e
  {
    assert CopyTarget(e, Path("/", "f"), Path("/", "a")) == Path("/a", "f");
  }

  /** Copying the file /f to /a/g when /a is a file: the target's directory is not a directory. */
  lemma CopyBelowFile(e: FsMap, now: MTime)
    requires Path("/", "a") in e && e[Path("/", "a")].File? && Path("/a", "g") !in e
    requires Path("/", "f") in e && e[Path("/", "f")].File?
    ensures var r := CopyOutcome(e, Path("/", "f"), Path("/a", "g"), now);
      r.0.Raise? && r.0.exc.kind == "NotADirectoryError" && r.1 == e
  {
    assert LastIndexIn("/a", '/', 0, 2) == Some(0);
    assert Parent(Path("/a", "g")) == Path("/", "a");
  }

  /** mkdir(parents=True) keeps every entry inside a directory. */
  lemma GrownKeepsRooted(e: FsMap, e1: FsMap, mtime: MTime)
    requires Rooted(e) && GrownByDirs(e, e1, mtime)
    ensures Rooted(e1)
  {
    forall q | q in e1 ensures IsDir(e1, Parent(q)) {
      if q in e {
        assert IsDir(e, Parent(q));
      }
    }
  }

  /** How far a path lies from its implicit top: 0 once its directory is "." or "/". */
  function Depth(p: Path): nat
  {
    if p.dir == "." || p.dir == "/" then 0 else |p.dir| + 1
  }

  lemma ParentShallower(p: Path)
    requires Depth(p) > 0
    ensures Depth(Parent(p)) < Depth(p)
  {
  }

  /** The text of an OSError raised by os.mkdir for `p`. */
  function MkdirError(what: string, p: Path): string { what + ": " + Repr(PathText(p)) }

  /**
   * Whether `q`, or the nearest existing path above it, is not a directory: a
   * file stands in the way, so a lookup through `q` fails with ENOTDIR.
   */
  predicate BlockedByFile(e: FsMap, q: Path)
    decreases Depth(q)
  {
    if Exists(e, q) then !IsDir(e, q)
    else Depth(q) > 0 && (ParentShallower(q); BlockedByFile(e, Parent(q)))
  }

  /**
   * One os.mkdir(p): it fails when `p` exists (FileExistsError, unless exist_ok
   * and `p` is a directory), when a file stands in the way of its parent
   * (NotADirectoryError, naming `p`) or when its parent is missing
   * (FileNotFoundError).
   */
  function MkdirOne(e: FsMap, p: Path, mtime: MTime, existOk: bool): (r: Result<FsMap>)
    ensures r.Ok? <==> (Exists(e, p) && existOk && IsDir(e, p)) || (!Exists(e, p) && IsDir(e, Parent(p)))
    ensures r.Ok? ==> r.value == if Exists(e, p) then e else e[p := Directory(mtime)]
    ensures !Exists(e, p) && BlockedByFile(e, Parent(p)) ==>
      r == Raise(Exception("NotADirectoryError", MkdirError("[Errno 20] Not a directory", p)))
  {
    if Exists(e, p) then
      if existOk && IsDir(e, p) then Ok(e) else Raise(Exception("FileExistsError", MkdirError("[Errno 17] File exists", p)))
    else if BlockedByFile(e, Parent(p)) then Raise(Exception("NotADirectoryError", MkdirError("[Errno 20] Not a directory", p)))
    else if !Exists(e, Parent(p)) then Raise(Exception("FileNotFoundError", MkdirError("[Errno 2] No such file or directory", p)))
    else Ok(e[p := Directory(mtime)])
  }

  /**
   * Path.mkdir(parents=True, exist_ok=existOk): when the mkdir fails with
   * FileNotFoundError, the parent is first created the same way (with
   * exist_ok=True), then `p` itself.
   */
  function MakeDirs(e: FsMap, p: Path, mtime: MTime, existOk: bool): (r: Result<FsMap>)
    decreases Depth(p)
  {
    if !Exists(e, p) && !Exists(e, Parent(p)) && !BlockedByFile(e, Parent(p)) then
      ParentShallower(p);
      match MakeDirs(e, Parent(p), mtime, true)
      case Raise(x) => Raise(x)
      case Ok(e1) => MkdirOne(e1, p, mtime, existOk)
    else MkdirOne(e, p, mtime, existOk)
  }

  /** `e1` keeps every entry of `e` and adds only directories with the given time, each inside a directory. */
  predicate GrownByDirs(e: FsMap, e1: FsMap, mtime: MTime)
  {
    (forall q :: q in e ==> q in e1 && e1[q] == e[q]) &&
    (forall q :: q in e1 && q !in e ==> e1[q] == Directory(mtime) && IsDir(e1, Parent(q)))
  }

  /**
   * mkdir(parents=True) keeps what was there and adds only new directories, each
   * inside a directory; when it succeeds, `p` is a directory. It fails with
   * FileExistsError for an existing `p` unless exist_ok lets an existing
   * directory through. A missing `p` with a file standing in the way of its
   * parent fails with NotADirectoryError naming `p` itself.
   */
  lemma {:induction false} MakeDirsGrows(e: FsMap, p: Path, mtime: MTime, existOk: bool)
    ensures MakeDirs(e, p, mtime, existOk).Ok? ==>
      GrownByDirs(e, MakeDirs(e, p, mtime, existOk).value, mtime) && IsDir(MakeDirs(e, p, mtime, existOk).value, p)
    ensures Exists(e, p) ==> (MakeDirs(e, p, mtime, existOk).Ok? <==> existOk && IsDir(e, p))
    ensures Exists(e, p) && !(existOk && IsDir(e, p)) ==>
      MakeDirs(e, p, mtime, existOk) == Raise(Exception("FileExistsError", MkdirError("[Errno 17] File exists", p)))
    ensures !Exists(e, p) && BlockedByFile(e, Parent(p)) ==>
      MakeDirs(e, p, mtime, existOk) == Raise(Exception("NotADirectoryError", MkdirError("[Errno 20] Not a directory", p)))
    decreases Depth(p)
  {
    var r := MakeDirs(e, p, mtime, existOk);
    if r.Ok? {
      if !Exists(e, p) && !Exists(e, Parent(p)) {
        ParentShallower(p);
        MakeDirsGrows(e, Parent(p), mtime, true);
        var e1 := MakeDirs(e, Parent(p), mtime, true).value;
        assert r == MkdirOne(e1, p, mtime, existOk);
        if !Exists(e1, p) {
          GrownByOneDir(e, e1, p, mtime);
        }
      } else if !Exists(e, p) {
        GrownByOneDir(e, e, p, mtime);
      }
    }
  }

  lemma GrownByOneDir(e: FsMap, e1: FsMap, p: Path, mtime: MTime)
    requires GrownByDirs(e, e1, mtime) && !Exists(e1, p) && IsDir(e1, Parent(p))
    ensures GrownByDirs(e, e1[p := Directory(mtime)], mtime) && IsDir(e1[p := Directory(mtime)], p)
  {
  }

  /** A missing directory below an existing one is created by mkdir(parents=True), and nothing else. */
  lemma MakeDirsInDirectory(e: FsMap, p: Path, mtime: MTime, existOk: bool)
    requires !Exists(e, p) && IsDir(e, Parent(p))
    ensures MakeDirs(e, p, mtime, existOk) == Ok(e[p := Directory(mtime)])
  {
  }

  /** Once mkdir(parents=True) succeeded, doing it again with exist_ok=True changes nothing. */
  lemma MakeDirsIdempotent(e: FsMap, p: Path, mtime: MTime, existOk: bool, mtime2: MTime)
    requires MakeDirs(e, p, mtime, existOk).Ok?
    ensures MakeDirs(MakeDirs(e, p, mtime, existOk).value, p, mtime2, true) == MakeDirs(e, p, mtime, existOk)
  {
    MakeDirsGrows(e, p, mtime, existOk);
  }

  /** With /a a file, mkdir('/a/b/c', parents=True) reports /a/b/c itself as not a directory, and creates nothing. */
  lemma MakeDirsBelowFileAncestor(e: FsMap, mtime: MTime, existOk: bool)
    requires Path("/", "a") in e && e[Path("/", "a")].File? && Path("/a", "b") !in e && Path("/a/b", "c") !in e
    ensures MakeDirs(e, Path("/a/b", "c"), mtime, existOk) ==
      Raise(Exception("NotADirectoryError", "[Errno 20] Not a directory: " + Repr("/a/b/c")))
  {
    assert LastIndexIn("/a/b", '/', 0, 4) == Some(2);
    assert LastIndexIn("/a", '/', 0, 2) == Some(0);
    assert Parent(Path("/a/b", "c")) == Path("/a", "b");
    assert Parent(Path("/a", "b")) == Path("/", "a");
    assert BlockedByFile(e, Path("/a", "b"));
    assert PathText(Path("/a/b", "c")) == "/a/b/c";
  }

  /** The parent of a proper path does not lie at or below it. */
  lemma ParentNotUnder(p: Path)
    requires Proper(p)
    ensures !Under(Parent(p), p)
  {
    var q := Parent(p);
    assert |q.dir| <= |p.dir|;
    assert q.dir == p.dir ==> p.dir == "." || p.dir == "/";
    assert p.dir != "." ==> |PathText(p)| > |p.dir|;
  }

  /** A sibling of a proper path never lies below it, so renaming onto a sibling cannot fail with OSError. */
  lemma SiblingNotUnder(p: Path, q: Path)
    requires Proper(p) && q.dir == p.dir && q != p
    ensures !Under(q, p)
  {
  }

  /** A file system whose entries change in place. */
  class FileSystem {
    var entries: FsMap

    constructor (initial: FsMap)
      ensures entries == initial
    {
      entries := initial;
    }

    /** Path.rename(src, dst), performed on the entries. */
    method Rename(src: Path, dst: Path) returns (r: Result<()>)
      modifies this
      ensures (r, entries) == RenameOutcome(old(entries), src, dst)
    {
      if src !in entries || !Exists(entries, Parent(dst)) {
        return Raise(Exception("FileNotFoundError", RenameError("[Errno 2] No such file or directory", src, dst)));
      }
      if !IsDir(entries, Parent(dst)) {
        return Raise(Exception("NotADirectoryError", RenameError("[Errno 20] Not a directory", src, dst)));
      }
      if src == dst {
        return Ok(());
      }
      if Under(dst, src) {
        return Raise(Exception("OSError", InvalidMove(src, dst)));
      }
      entries := Moved(entries, src, dst);
      r := Ok(());
    }

    /** shutil.rmtree(path) or path.unlink(): the entry and everything below it go away. */
    method RemoveTree(root: Path)
      modifies this
      ensures entries == map q | q in old(entries) && !Under(q, root) :: old(entries)[q]
      ensures root !in entries
      ensures forall q :: q in old(entries) && !Under(q, root) ==> q in entries
    {
      entries := map q | q in entries && !Under(q, root) :: entries[q];
    }
  }
}
