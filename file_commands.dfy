// The file commands of commands.py (move_out_of_way, move_to_final, copy_file,
// remove_tree) executed on the abstract file system, with the naming rules of
// _timestamped_path and _unique_path.
module FileCommands {
  import opened Wrappers
  import opened Text
  import opened Files

  // ---------------------------------------------------------------- names

  /** The ISO timestamp made filename-friendly: 'T' becomes '_' and colons go. */
  function FilenameFriendly(iso: string): (r: string)
    ensures 'T' !in r && ':' !in r && |r| <= |iso|
    ensures forall c :: c in r ==> c == '_' || (c in iso && c != 'T' && c != ':')
  {
    RemoveChar(ReplaceChar(iso, 'T', '_'), ':')
  }

  lemma {:induction false} RemoveCharConcat(a: string, b: string, c: char)
    ensures RemoveChar(a + b, c) == RemoveChar(a, c) + RemoveChar(b, c)
    decreases |a|
  {
    if a != [] {
      var h := if a[0] == c then [] else [a[0]];
      assert (a + b)[0] == a[0] && (a + b)[1..] == a[1..] + b;
      calc {
        RemoveChar(a + b, c);
        h + RemoveChar(a[1..] + b, c);
        { RemoveCharConcat(a[1..], b, c); }
        h + (RemoveChar(a[1..], c) + RemoveChar(b, c));
        (h + RemoveChar(a[1..], c)) + RemoveChar(b, c);
        RemoveChar(a, c) + RemoveChar(b, c);
      }
    } else {
      assert a + b == b;
    }
  }

  lemma {:induction false} RemoveCharAbsent(s: string, c: char)
    requires c !in s
    ensures RemoveChar(s, c) == s
    decreases |s|
  {
    if s != [] {
      RemoveCharAbsent(s[1..], c);
    }
  }

  lemma ReplaceCharConcat(a: string, b: string, x: char, y: char)
    ensures ReplaceChar(a + b, x, y) == ReplaceChar(a, x, y) + ReplaceChar(b, x, y)
  {
    var l, r := ReplaceChar(a + b, x, y), ReplaceChar(a, x, y) + ReplaceChar(b, x, y);
    assert |l| == |r|;
    forall i | 0 <= i < |l| ensures l[i] == r[i] {
      if i < |a| { assert (a + b)[i] == a[i]; } else { assert (a + b)[i] == b[i - |a|]; }
    }
  }

  lemma ReplaceCharAbsent(s: string, x: char, y: char)
    requires x !in s
    ensures ReplaceChar(s, x, y) == s
  {
  }

  /** A component of an ISO timestamp between its separators. */
  predicate IsoField(s: string)
  {
    'T' !in s && ':' !in s
  }

  lemma FilenameFriendlyConcat(a: string, b: string)
    ensures FilenameFriendly(a + b) == FilenameFriendly(a) + FilenameFriendly(b)
  {
    ReplaceCharConcat(a, b, 'T', '_');
    RemoveCharConcat(ReplaceChar(a, 'T', '_'), ReplaceChar(b, 'T', '_'), ':');
  }

  lemma FilenameFriendlyField(s: string)
    requires IsoField(s)
    ensures FilenameFriendly(s) == s
  {
    ReplaceCharAbsent(s, 'T', '_');
    RemoveCharAbsent(s, ':');
  }

  /** An isoformat() text `<date>T<hh>:<mm>:<ss>` becomes `<date>_<hh><mm><ss>`. */
  lemma FilenameFriendlyIso(date: string, hh: string, mm: string, ss: string)
    requires IsoField(date) && IsoField(hh) && IsoField(mm) && IsoField(ss)
    ensures FilenameFriendly(date + "T" + hh + ":" + mm + ":" + ss) == date + "_" + hh + mm + ss
  {
    var s1 := date + "T";
    var s2 := s1 + hh;
    var s3 := s2 + ":";
    var s4 := s3 + mm;
    var s5 := s4 + ":";
    var s6 := s5 + ss;
    assert FilenameFriendly("T") == "_" by { assert ReplaceChar("T", 'T', '_') == "_"; }
    assert FilenameFriendly(":") == "" by { ReplaceCharAbsent(":", 'T', '_'); }
    FilenameFriendlyField(date);
    FilenameFriendlyField(hh);
    FilenameFriendlyField(mm);
    FilenameFriendlyField(ss);
    FilenameFriendlyConcat(date, "T");
    assert FilenameFriendly(s1) == date + "_";
    FilenameFriendlyConcat(s1, hh);
    assert FilenameFriendly(s2) == date + "_" + hh;
    FilenameFriendlyConcat(s2, ":");
    assert FilenameFriendly(s3) == date + "_" + hh;
    FilenameFriendlyConcat(s3, mm);
    assert FilenameFriendly(s4) == date + "_" + hh + mm;
    FilenameFriendlyConcat(s4, ":");
    assert FilenameFriendly(s5) == date + "_" + hh + mm;
    FilenameFriendlyConcat(s5, ss);
  }

  /**
   * _timestamped_path(p): a sibling of p, other than p, whose name is p's name,
   * a '-' and the rounded modification time with no 'T' and no ':' left.
   */
  function TimestampedPath(p: Path, m: MTime): (r: Path)
    ensures r.dir == p.dir && r != p
    ensures |r.name| > |p.name| && r.name[..|p.name| + 1] == p.name + "-"
    ensures 'T' !in r.name[|p.name| + 1..] && ':' !in r.name[|p.name| + 1..]
  {
    var r := WithName(p, p.name + "-" + FilenameFriendly(m.rounded));
    assert r.name[|p.name| + 1..] == FilenameFriendly(m.rounded);
    r
  }

  /** A modification time `<date>T<hh>:<mm>:<ss>` gives the name `<name>-<date>_<hh><mm><ss>`. */
  lemma TimestampedPathIso(p: Path, date: string, hh: string, mm: string, ss: string, exact: string)
    requires IsoField(date) && IsoField(hh) && IsoField(mm) && IsoField(ss)
    ensures TimestampedPath(p, MTime(date + "T" + hh + ":" + mm + ":" + ss, exact)).name ==
      p.name + "-" + date + "_" + hh + mm + ss
  {
    FilenameFriendlyIso(date, hh, mm, ss);
  }

  /**
   * The number of `~([0-9]+)$` in a name: the digits after the last '~', which
   * must run to the end of the name or to a final newline (where `$` also matches).
   */
  function TildeNumber(name: string): (r: Option<nat>)
  {
    match LastIndexIn(name, '~', 0, |name|)
    case None => None
    case Some(j) =>
      var body := name[j + 1..];
      var digits := if body != [] && body[|body| - 1] == '\n' then body[..|body| - 1] else body;
      if digits != [] && AllDigits(digits) then Some(DigitsValue(digits)) else None
  }

  /** A name whose last '~' is followed only by digits reads as those digits. */
  lemma TildeNumberAt(name: string, j: nat)
    requires j < |name| && name[j] == '~'
    requires forall k :: j < k < |name| ==> name[k] != '~'
    requires name[j + 1..] != [] && AllDigits(name[j + 1..])
    ensures TildeNumber(name) == Some(DigitsValue(name[j + 1..]))
  {
    assert LastIndexIn(name, '~', 0, |name|) == Some(j);
    var body := name[j + 1..];
    assert IsDigit(body[|body| - 1]);
  }

  /** A name with a numeric suffix reads back as that number. */
  lemma TildeNumberOf(base: string, n: nat)
    ensures TildeNumber(base + "~" + NatToString(n)) == Some(n)
  {
    var digits := NatToString(n);
    var name := base + "~" + digits;
    var j := |base|;
    assert name[j + 1..] == digits;
    forall k | j < k < |name| ensures name[k] != '~' {
      assert name[k] == digits[k - j - 1];
      assert IsDigit(digits[k - j - 1]);
    }
    TildeNumberAt(name, j);
    NatToStringValue(n);
  }

  /** What path.parent.glob(path.name + '~*') yields. */
  function Siblings(fs: FsMap, p: Path): set<Path>
  {
    set q | q in fs && q.dir == p.dir && StartsWith(q.name, p.name + "~")
  }

  /** The numeric suffixes among a set of paths. */
  function SuffixesOf(ps: set<Path>): set<nat>
  {
    set q | q in ps && TildeNumber(q.name).Some? :: TildeNumber(q.name).value
  }

  /** max() over a set of numbers, 0 for the empty set (max_nr starts at 0). */
  ghost function SetMax(s: set<nat>): (m: nat)
    ensures forall k :: k in s ==> k <= m
    ensures s == {} ==> m == 0
    ensures s != {} ==> m in s
    decreases |s|
  {
    if s == {} then 0
    else
      var x :| x in s;
      var r := SetMax(s - {x});
      assert forall k :: k in s ==> k == x || k in s - {x};
      if x > r then x else r
  }

  lemma MaxIsSetMax(s: set<nat>, m: nat)
    requires (forall k :: k in s ==> k <= m) && (m == 0 || m in s)
    ensures m == SetMax(s)
  {
  }

  /** The path _unique_path returns: one past the largest suffix in use. */
  ghost function UniqueTarget(fs: FsMap, p: Path): (r: Path)
    ensures r.dir == p.dir && r !in fs && r != p
  {
    var n := SetMax(SuffixesOf(Siblings(fs, p))) + 1;
    NumberedFresh(fs, p, n);
    WithName(p, p.name + "~" + NatToString(n))
  }

  lemma InSuffixes(ps: set<Path>, q: Path)
    requires q in ps && TildeNumber(q.name).Some?
    ensures TildeNumber(q.name).value in SuffixesOf(ps)
  {
  }

  /** A sibling numbered one above every suffix in use is not in use, and differs from the base path. */
  lemma NumberedFresh(fs: FsMap, p: Path, n: nat)
    requires n == SetMax(SuffixesOf(Siblings(fs, p))) + 1
    ensures WithName(p, p.name + "~" + NatToString(n)) !in fs
    ensures WithName(p, p.name + "~" + NatToString(n)) != p
  {
    var sibs := Siblings(fs, p);
    var t := WithName(p, p.name + "~" + NatToString(n));
    TildeNumberOf(p.name, n);
    assert StartsWith(t.name, p.name + "~") by { assert t.name[..|p.name| + 1] == p.name + "~"; }
    if t in fs {
      assert t in sibs;
      InSuffixes(sibs, t);
      assert false;
    }
    assert |t.name| > |p.name|;
  }

  lemma SuffixesOfAdd(done: set<Path>, q: Path)
    ensures SuffixesOf(done + {q}) == SuffixesOf(done) + (if TildeNumber(q.name).Some? then {TildeNumber(q.name).value} else {})
  {
  }

  lemma UniqueTargetOf(fs: FsMap, p: Path, seen: set<nat>, maxNr: nat)
    requires seen == SuffixesOf(Siblings(fs, p)) && maxNr == SetMax(seen)
    ensures UniqueTarget(fs, p) == WithName(p, p.name + "~" + NatToString(maxNr + 1))
  {
  }

  /** One step of the running maximum: it stays an upper bound that is 0 or attained. */
  predicate RunningMax(seen: set<nat>, maxNr: nat)
  {
    (forall k :: k in seen ==> k <= maxNr) && (maxNr == 0 || maxNr in seen)
  }

  lemma RunningMaxStep(seen: set<nat>, maxNr: nat, m: Option<nat>)
    requires RunningMax(seen, maxNr)
    ensures RunningMax(seen + (if m.Some? then {m.value} else {}), if m.Some? && m.value > maxNr then m.value else maxNr)
  {
  }

  /** Moving one element from the to-do set to the done set keeps their union. */
  lemma MoveOne<T>(todo: set<T>, done: set<T>, all: set<T>, q: T)
    requires todo + done == all && todo !! done && q in todo
    ensures (todo - {q}) + (done + {q}) == all && (todo - {q}) !! (done + {q})
  {
  }

  /** _unique_path(p), scanning the siblings one by one. */
  method UniquePath(fs: FsMap, p: Path) returns (r: Path)
    ensures r == UniqueTarget(fs, p)
  {
    var todo := Siblings(fs, p);
    ghost var all := todo;
    ghost var done: set<Path> := {};
    ghost var seen: set<nat> := {};
    var maxNr: nat := 0;
    while todo != {}
      invariant todo + done == all && todo !! done
      invariant seen == SuffixesOf(done)
      invariant RunningMax(seen, maxNr)
      decreases |todo|
    {
      var q :| q in todo;
      var m := TildeNumber(q.name);
      SuffixesOfAdd(done, q);
      RunningMaxStep(seen, maxNr, m);
      MoveOne(todo, done, all, q);
      if m.Some? && m.value > maxNr {
        maxNr := m.value;
      }
      seen := seen + (if m.Some? then {m.value} else {});
      todo, done := todo - {q}, done + {q};
    }
    assert done == all;
    MaxIsSetMax(seen, maxNr);
    UniqueTargetOf(fs, p, seen, maxNr);
    r := WithName(p, p.name + "~" + NatToString(maxNr + 1));
  }

  /** The path named `<p.name>~<n>` beside p. */
  function Numbered(p: Path, n: nat): (q: Path)
    ensures q.dir == p.dir && TildeNumber(q.name) == Some(n)
  {
    TildeNumberOf(p.name, n);
    WithName(p, p.name + "~" + NatToString(n))
  }

  lemma SiblingsOfPair(p: Path, e: Entry, n: nat, m: nat)
    ensures Siblings(map[p := e, Numbered(p, n) := e, Numbered(p, m) := e], p) == {Numbered(p, n), Numbered(p, m)}
  {
    var tilde := p.name + "~";
    var a, b := Numbered(p, n), Numbered(p, m);
    assert StartsWith(a.name, tilde) by { assert a.name[..|tilde|] == tilde; }
    assert StartsWith(b.name, tilde) by { assert b.name[..|tilde|] == tilde; }
    assert !StartsWith(p.name, tilde);
    SiblingsOfThree(p, a, b, e);
  }

  lemma SiblingsOfThree(p: Path, a: Path, b: Path, e: Entry)
    requires a.dir == p.dir && StartsWith(a.name, p.name + "~")
    requires b.dir == p.dir && StartsWith(b.name, p.name + "~")
    requires !StartsWith(p.name, p.name + "~")
    ensures Siblings(map[p := e, a := e, b := e], p) == {a, b}
  {
  }

  lemma SuffixesOfPair(a: Path, b: Path, n: nat, m: nat)
    requires TildeNumber(a.name) == Some(n) && TildeNumber(b.name) == Some(m)
    ensures SuffixesOf({a, b}) == {n, m}
  {
  }

  /** Siblings `~n` and `~m` of a path (n <= m, gaps allowed) make the unique path `~(m+1)`. */
  lemma UniqueTargetAfter(p: Path, e: Entry, n: nat, m: nat)
    requires n <= m
    ensures UniqueTarget(map[p := e, Numbered(p, n) := e, Numbered(p, m) := e], p) == Numbered(p, m + 1)
  {
    SiblingsOfPair(p, e, n, m);
    UniqueTargetOfPair(map[p := e, Numbered(p, n) := e, Numbered(p, m) := e], p, n, m);
  }

  lemma UniqueTargetOfPair(fs: FsMap, p: Path, n: nat, m: nat)
    requires n <= m && Siblings(fs, p) == {Numbered(p, n), Numbered(p, m)}
    ensures UniqueTarget(fs, p) == Numbered(p, m + 1)
  {
    assert SuffixesOf(Siblings(fs, p)) == {n, m} by { SuffixesOfPair(Numbered(p, n), Numbered(p, m), n, m); }
    MaxOfPair(n, m);
    UniqueTargetOfMax(fs, p, {n, m}, m);
  }

  lemma MaxOfPair(n: nat, m: nat)
    requires n <= m
    ensures SetMax({n, m}) == m
  {
    MaxIsSetMax({n, m}, m);
  }

  lemma UniqueTargetOfMax(fs: FsMap, p: Path, seen: set<nat>, m: nat)
    requires seen == SuffixesOf(Siblings(fs, p)) && m == SetMax(seen)
    ensures UniqueTarget(fs, p) == Numbered(p, m + 1)
  {
    UniqueTargetOf(fs, p, seen, m);
  }

  /** Where an existing path is moved out of the way to: its timestamped name, made unique if taken. */
  ghost function BackupPath(fs: FsMap, p: Path): (r: Path)
    requires p in fs
    ensures r.dir == p.dir && r !in fs && r != p
  {
    var t := TimestampedPath(p, fs[p].mtime);
    if t in fs then UniqueTarget(fs, t) else t
  }

  /** The backup path computed step by step, as the execute methods do. */
  method Backup(fs: FsMap, p: Path) returns (r: Path)
    requires p in fs
    ensures r == BackupPath(fs, p)
  {
    r := TimestampedPath(p, fs[p].mtime);
    if r in fs {
      r := UniquePath(fs, r);
    }
  }

  // ---------------------------------------------------------------- commands

  /** MoveOutOfWayCommand.execute: an existing src is renamed to its backup path. */
  method MoveOutOfWay(fs: FileSystem, commandName: string, src: Path) returns (r: Result<()>, logs: seq<string>)
    modifies fs
    ensures src !in old(fs.entries) ==> (r.Ok? && fs.entries == old(fs.entries) &&
      logs == [commandName + ": Render output path " + PathText(src) + " does not exist, not moving out of way"])
    ensures src in old(fs.entries) ==>
      var dst := BackupPath(old(fs.entries), src);
      (r, fs.entries) == RenameOutcome(old(fs.entries), src, dst) &&
      logs == [commandName + ": Moving " + PathText(src) + " to " + PathText(dst)]
  {
    if src !in fs.entries {
      return Ok(()), [commandName + ": Render output path " + PathText(src) + " does not exist, not moving out of way"];
    }
    var dst := Backup(fs.entries, src);
    logs := [commandName + ": Moving " + PathText(src) + " to " + PathText(dst)];
    r := fs.Rename(src, dst);
  }

  /** A backup path is a proper sibling of the path it backs up. */
  lemma BackupPathProper(fs: FsMap, p: Path)
    requires p in fs && Proper(p) && '/' !in fs[p].mtime.rounded
    ensures Proper(BackupPath(fs, p)) && !Under(BackupPath(fs, p), p) && !Under(p, BackupPath(fs, p))
  {
    var t := TimestampedPath(p, fs[p].mtime);
    var b := BackupPath(fs, p);
    assert '/' !in t.name;
    assert t.name[|p.name|] == '-';
    if t in fs {
      var n := SetMax(SuffixesOf(Siblings(fs, t))) + 1;
      assert b.name == t.name + "~" + NatToString(n);
      assert '/' !in NatToString(n) by { assert AllDigits(NatToString(n)); }
      assert b.name[|p.name|] == '-';
    }
    SiblingNotUnder(p, b);
    SiblingNotUnder(b, p);
  }

  /**
   * Moving a proper path out of the way, within its directory, succeeds, and loses nothing that was recorded
   * outside the fresh backup path: the path and everything below it reappear there.
   */
  lemma MoveOutOfWayKeepsAll(fs: FsMap, src: Path)
    requires src in fs && Proper(src) && '/' !in fs[src].mtime.rounded && IsDir(fs, Parent(src))
    ensures var dst := BackupPath(fs, src); var out := RenameOutcome(fs, src, dst);
      dst !in fs && out.0.Ok? && src !in out.1 && dst in out.1 && out.1[dst] == fs[src] &&
      (forall q :: q in fs && Under(q, src) && q != src ==> Rebased(q, src, dst) in out.1 && out.1[Rebased(q, src, dst)] == fs[q]) &&
      (forall q :: q in fs && !Under(q, src) && !Under(q, dst) ==> q in out.1 && out.1[q] == fs[q])
  {
    BackupPathProper(fs, src);
    MovedKeeps(fs, src, BackupPath(fs, src));
  }

  /**
   * The outcome of move_to_final on the entries: an existing dest is first renamed to
   * its backup path (an error there ends the command), then src is renamed to dest.
   */
  ghost function MoveToFinalOutcome(e: FsMap, src: Path, dest: Path): (r: (Result<()>, FsMap))
  {
    if src !in e then (Ok(()), e)
    else if dest in e then
      var first := RenameOutcome(e, dest, BackupPath(e, dest));
      if first.0.Raise? then first else RenameOutcome(first.1, src, dest)
    else RenameOutcome(e, src, dest)
  }

  /** MoveToFinalCommand.execute. */
  method MoveToFinal(fs: FileSystem, commandName: string, src: Path, dest: Path) returns (r: Result<()>, logs: seq<string>)
    modifies fs
    ensures (r, fs.entries) == MoveToFinalOutcome(old(fs.entries), src, dest)
    ensures src !in old(fs.entries) ==> logs == [commandName + ": Path " + PathText(src) + " does not exist, not moving"]
    ensures src in old(fs.entries) && dest !in old(fs.entries) ==>
      logs == [commandName + ": Moving " + PathText(src) + " to " + PathText(dest)]
    ensures src in old(fs.entries) && dest in old(fs.entries) ==>
      var backup := BackupPath(old(fs.entries), dest);
      var first := [commandName + ": Moving " + PathText(dest) + " to " + PathText(backup)];
      logs == (if RenameOutcome(old(fs.entries), dest, backup).0.Raise? then first
               else first + [commandName + ": Moving " + PathText(src) + " to " + PathText(dest)])
  {
    if src !in fs.entries {
      return Ok(()), [commandName + ": Path " + PathText(src) + " does not exist, not moving"];
    }
    logs := [];
    if dest in fs.entries {
      var backup := Backup(fs.entries, dest);
      logs := logs + [commandName + ": Moving " + PathText(dest) + " to " + PathText(backup)];
      r := fs.Rename(dest, backup);
      if r.Raise? {
        return;
      }
    }
    logs := logs + [commandName + ": Moving " + PathText(src) + " to " + PathText(dest)];
    r := fs.Rename(src, dest);
  }

  /** With src equal to dest, dest is moved away and the second rename finds nothing: FileNotFoundError. */
  lemma MoveToFinalOntoItself(fs: FsMap, p: Path)
    requires p in fs && Proper(p) && '/' !in fs[p].mtime.rounded && IsDir(fs, Parent(p))
    ensures var out := MoveToFinalOutcome(fs, p, p);
      out.0.Raise? && out.0.exc.kind == "FileNotFoundError" && out.1 == Moved(fs, p, BackupPath(fs, p))
  {
    BackupPathProper(fs, p);
    MovedKeeps(fs, p, BackupPath(fs, p));
  }

  /**
   * move_to_final of two unrelated proper paths succeeds: dest then holds what src held,
   * and what dest held survives at its backup path.
   */
  lemma MoveToFinalKeepsOldDest(fs: FsMap, src: Path, dest: Path)
    requires src in fs && dest in fs && Proper(src) && Proper(dest) && '/' !in fs[dest].mtime.rounded
    requires !Under(src, dest) && !Under(dest, src) && !Under(src, BackupPath(fs, dest)) && IsDir(fs, Parent(dest))
    ensures var backup := BackupPath(fs, dest); var out := MoveToFinalOutcome(fs, src, dest);
      out.0.Ok? && out.1[dest] == fs[src] && src !in out.1 && backup in out.1 && out.1[backup] == fs[dest] &&
      (forall q :: q in fs && !Under(q, src) && !Under(q, dest) && !Under(q, backup) ==> q in out.1 && out.1[q] == fs[q])
  {
    var backup := BackupPath(fs, dest);
    BackupPathProper(fs, dest);
    MovedKeeps(fs, dest, backup);
    var e1 := Moved(fs, dest, backup);
    assert src in e1 && e1[src] == fs[src];
    assert !Under(backup, src);
    ParentNotUnder(dest);
    ParentNotUnder(backup);
    assert IsDir(e1, Parent(dest));
    MovedKeeps(e1, src, dest);
  }

  /**
   * The log entries of a copy, all written before anything is created: the
   * overwrite warning when dest exists, the copy itself, and the note that the
   * target directory is created when it is missing.
   */
  function CopyLogs(e: FsMap, commandName: string, src: Path, dest: Path): (logs: seq<string>)
    ensures |logs| == 1 + (if Exists(e, dest) then 1 else 0) + (if Exists(e, Parent(dest)) then 0 else 1)
    ensures commandName + ": Copying " + PathText(src) + " to " + PathText(dest) in logs
  {
    (if Exists(e, dest) then [commandName + ": Destination " + PathText(dest) + " exists, going to overwrite it."] else []) +
    [commandName + ": Copying " + PathText(src) + " to " + PathText(dest)] +
    (if Exists(e, Parent(dest)) then [] else [commandName + ": Target directory " + PathText(Parent(dest)) + " does not exist; creating."])
  }

  /**
   * CopyFileCommand.execute. A missing src raises CommandExecutionError. A missing
   * parent directory of dest is created with every missing directory above it
   * (mkdir(parents=True), with the given modification time); an error there ends
   * the command. shutil.copy then copies as CopyOutcome says: into dest, or into
   * dest/<src name> when dest is a directory, raising for a copy onto src itself,
   * a directory to read or write, or a target directory that is a file. The
   * result is the path reported as produced.
   */
  method CopyFile(fs: FileSystem, commandName: string, src: Path, dest: Path, now: MTime) returns (r: Result<Path>, logs: seq<string>)
    modifies fs
    ensures !Exists(old(fs.entries), src) ==> (r == Raise(Exception("CommandExecutionError", "Path " + PathText(src) + " does not exist, unable to copy")) &&
      fs.entries == old(fs.entries) && logs == [])
    ensures Exists(old(fs.entries), src) ==>
      var e0 := old(fs.entries);
      var made := if Exists(e0, Parent(dest)) then Ok(e0) else MakeDirs(e0, Parent(dest), now, false);
      logs == CopyLogs(e0, commandName, src, dest) &&
      (made.Raise? ==> r == Raise(made.exc) && fs.entries == e0) &&
      (made.Ok? ==>
        var copied := CopyOutcome(made.value, src, dest, now);
        fs.entries == copied.1 && r == (if copied.0.Ok? then Ok(dest) else Raise(copied.0.exc)))
    ensures Rooted(old(fs.entries)) ==> Rooted(fs.entries)
  {
    if !Exists(fs.entries, src) {
      return Raise(Exception("CommandExecutionError", "Path " + PathText(src) + " does not exist, unable to copy")), [];
    }
    ghost var e0 := fs.entries;
    logs := CopyLogs(fs.entries, commandName, src, dest);
    if !Exists(fs.entries, Parent(dest)) {
      var made := MakeDirs(fs.entries, Parent(dest), now, false);
      if made.Raise? {
        return Raise(made.exc), logs;
      }
      MakeDirsGrows(e0, Parent(dest), now, false);
      if Rooted(e0) {
        GrownKeepsRooted(e0, made.value, now);
      }
      fs.entries := made.value;
    }
    ghost var e1 := fs.entries;
    var copied := CopyOutcome(fs.entries, src, dest, now);
    if Rooted(e1) {
      CopyKeepsRooted(e1, src, dest, now);
    }
    fs.entries := copied.1;
    r := if copied.0.Ok? then Ok(dest) else Raise(copied.0.exc);
  }

  /** RemoveTreeCommand.execute: an existing path is removed with everything below it. */
  method RemoveTree(fs: FileSystem, path: Path) returns (logs: seq<string>)
    modifies fs
    ensures path !in old(fs.entries) ==> (fs.entries == old(fs.entries) &&
      logs == ["Path " + PathText(path) + " does not exist, so not removing."])
    ensures path in old(fs.entries) ==> (fs.entries == (map q | q in old(fs.entries) && !Under(q, path) :: old(fs.entries)[q]) &&
      logs == ["Removing tree rooted at " + PathText(path)])
  {
    if path !in fs.entries {
      return ["Path " + PathText(path) + " does not exist, so not removing."];
    }
    logs := ["Removing tree rooted at " + PathText(path)];
    fs.RemoveTree(path);
  }
}
