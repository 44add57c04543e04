/**
 * The part of the operating system's file system the Manager uses: a tree of
 * directories and regular files addressed by their components below the root,
 * the os calls as functions on it (os.Stat, os.MkdirAll, os.OpenFile with
 * O_CREATE|O_WRONLY, writes through that handle, os.WriteFile, os.ReadFile,
 * os.ReadDir, os.RemoveAll, os.Rename), and a Disk object whose methods apply
 * them in place.
 */
module Disk {
  import opened Outcomes
  import opened Strings
  import opened Paths
  import opened Plugin

  type Path = seq<string>

  /** What a regular file holds: bytes, or a metadata record that json.Unmarshal reads back. */
  datatype FileData = Raw(bytes: seq<Byte>) | Record(info: Info)

  datatype Node = Directory | File(data: FileData)

  /** Every existing path below the root and what it is; the root is always a directory. */
  type Tree = map<Path, Node>

  /**
   * The error kinds the Manager tells apart: os.IsNotExist holds exactly of
   * NotExist. Exist is EEXIST, Busy is EBUSY. Denied stands for a failure
   * the tree does not explain (permissions, a full disk).
   */
  datatype DiskError = NotExist | Exist | NotDir | IsDir | Invalid | Busy | Denied

  /** One entry of os.ReadDir: its name and whether it is a directory. */
  datatype DirEntry = DirEntry(name: string, isDir: bool)

  function At(t: Tree, p: Path): Option<Node> {
    if p == [] then Some(Directory) else if p in t then Some(t[p]) else None
  }

  predicate IsDirAt(t: Tree, p: Path) {
    At(t, p) == Some(Directory)
  }

  predicate IsFileAt(t: Tree, p: Path) {
    At(t, p).Some? && At(t, p).value.File?
  }

  /** Some proper ancestor of `p` is a regular file. */
  predicate Blocked(t: Tree, p: Path)
    decreases |p|
  {
    |p| > 0 && (IsFileAt(t, p[..|p| - 1]) || Blocked(t, p[..|p| - 1]))
  }

  /** No entry lies below a regular file, as on any real file system. */
  predicate Proper(t: Tree) {
    forall k :: k in t ==> !Blocked(t, k)
  }

  /** A directory reached without passing through a file. */
  predicate Reachable(t: Tree, p: Path) {
    IsDirAt(t, p) && !Blocked(t, p)
  }

  /** The error a lookup of a missing path reports: ENOTDIR through a file, ENOENT otherwise. */
  function Missing(t: Tree, p: Path): DiskError {
    if Blocked(t, p) then NotDir else NotExist
  }

  /** `k` lies strictly below `d`. */
  predicate Below(k: Path, d: Path) {
    |d| < |k| && k[..|d|] == d
  }

  /** `t` and `u` agree everywhere except strictly below `d`. */
  ghost predicate Confined(t: Tree, u: Tree, d: Path) {
    forall k :: !Below(k, d) ==> At(t, k) == At(u, k)
  }

  // ---------------------------------------------------------------- operations on locations

  function Stat(t: Tree, p: Path): Result<Node, DiskError> {
    if At(t, p).Some? then Ok(At(t, p).value) else Err(Missing(t, p))
  }

  /** os.MkdirAll: create every missing directory on the way to `p`. */
  function MkdirAll(t: Tree, p: Path): Result<Tree, DiskError>
    decreases |p|
  {
    match At(t, p)
    case Some(Directory) => Ok(t)
    case Some(File(_)) => Err(NotDir)
    case None =>
      match MkdirAll(t, p[..|p| - 1])
      case Err(e) => Err(e)
      case Ok(u) => Ok(u[p := Directory])
  }

  /** os.OpenFile(p, O_CREATE|O_WRONLY): an existing file is opened as it is, a missing one created empty. */
  function CreateFile(t: Tree, p: Path): Result<Tree, DiskError> {
    match At(t, p)
    case Some(Directory) => Err(IsDir)
    case Some(File(_)) => Ok(t)
    case None => if IsDirAt(t, p[..|p| - 1]) then Ok(t[p := File(Raw([]))]) else Err(Missing(t, p))
  }

  /**
   * Writing `data` from offset 0 through a handle opened without O_TRUNC: a
   * longer old content keeps its tail. A record overwritten by bytes becomes
   * those bytes.
   */
  function Overwrite(prior: FileData, data: seq<Byte>): (r: FileData)
    ensures data != [] ==> r.Raw? && |r.bytes| >= |data| && r.bytes[..|data|] == data
    ensures data == [] ==> r == prior
  {
    match prior
    case Raw(b) => if |data| >= |b| then Raw(data) else Raw(data + b[|data|..])
    case Record(_) => if data == [] then prior else Raw(data)
  }

  function Write(t: Tree, p: Path, data: seq<Byte>): Tree {
    if p in t && t[p].File? then t[p := File(Overwrite(t[p].data, data))] else t
  }

  /** os.WriteFile: create or truncate, then write. */
  function WriteFile(t: Tree, p: Path, d: FileData): Result<Tree, DiskError> {
    match At(t, p)
    case Some(Directory) => Err(IsDir)
    case Some(File(_)) => Ok(t[p := File(d)])
    case None => if IsDirAt(t, p[..|p| - 1]) then Ok(t[p := File(d)]) else Err(Missing(t, p))
  }

  function ReadFile(t: Tree, p: Path): Result<FileData, DiskError> {
    match At(t, p)
    case Some(File(d)) => Ok(d)
    case Some(Directory) => Err(IsDir)
    case None => Err(Missing(t, p))
  }

  /** os.RemoveAll: `p` and everything below it go. */
  function RemoveAll(t: Tree, p: Path): Tree {
    map k | k in t && !Under(k, p) :: t[k]
  }

  function Children(t: Tree, p: Path): set<string> {
    set k | k in t && |k| == |p| + 1 && k[..|p|] == p :: k[|p|]
  }

  /** os.ReadDir: the entries of a directory, sorted by name. */
  function ReadDir(t: Tree, p: Path): Result<seq<DirEntry>, DiskError> {
    match At(t, p)
    case None => Err(Missing(t, p))
    case Some(File(_)) => Err(NotDir)
    case Some(Directory) =>
      var names := SortedNames(Children(t, p));
      Ok(seq(|names|, i requires 0 <= i < |names| => DirEntry(names[i], IsDirAt(t, p + [names[i]]))))
  }

  lemma SuffixInjective(src: Path, dst: Path)
    ensures forall k1, k2 :: Under(k1, src) && Under(k2, src) && dst + k1[|src|..] == dst + k2[|src|..] ==> k1 == k2
  {
    forall k1, k2 | Under(k1, src) && Under(k2, src) && dst + k1[|src|..] == dst + k2[|src|..]
      ensures k1 == k2
    {
      assert k1[|src|..] == (dst + k1[|src|..])[|dst|..];
      assert k2[|src|..] == (dst + k2[|src|..])[|dst|..];
      assert k1 == k1[..|src|] + k1[|src|..];
      assert k2 == k2[..|src|] + k2[|src|..];
    }
  }

  /** The tree after the subtree at `src` moves to `dst`, replacing what was at `dst`. */
  function Move(t: Tree, src: Path, dst: Path): Tree {
    SuffixInjective(src, dst);
    var keep := map k | k in t && !Under(k, src) && !Under(k, dst) :: t[k];
    var moved := map k | k in t && Under(k, src) :: dst + k[|src|..] := t[k];
    keep + moved
  }

  /**
   * os.Rename on Unix over resolved paths: a missing source is reported
   * first; an existing directory as target is refused with EEXIST, even an
   * empty one and even the source itself; otherwise rename(2), which lets a
   * file replace a file and moves an entry to a free name in a directory.
   */
  function Rename(t: Tree, src: Path, dst: Path): Result<Tree, DiskError> {
    match At(t, src)
    case None => Err(Missing(t, src))
    case Some(s) =>
      if IsDirAt(t, dst) then Err(Exist)
      else if src == dst then Ok(t)
      else if Under(dst, src) then Err(Invalid)
      else match At(t, dst)
        case None => if IsDirAt(t, dst[..|dst| - 1]) then Ok(Move(t, src, dst)) else Err(Missing(t, dst))
        case Some(n) => if s.Directory? then Err(NotDir) else Ok(Move(t, src, dst))
  }

  // ---------------------------------------------------------------- operations on path strings

  /** Where a path string leads: the empty string names nothing (ENOENT). */
  function Resolve(cwd: Path, s: string): Result<Path, DiskError> {
    if s == "" then Err(NotExist) else Ok(Locate(cwd, s))
  }

  /** A path whose last element is `.` (os.RemoveAll refuses it with EINVAL). */
  predicate EndsWithDot(s: string) {
    s == "." || (|s| >= 2 && s[|s| - 1] == '.' && s[|s| - 2] == '/')
  }

  function StatAt(t: Tree, cwd: Path, s: string): Result<Node, DiskError> {
    match Resolve(cwd, s)
    case Err(e) => Err(e)
    case Ok(p) => Stat(t, p)
  }

  function MkdirAllAt(t: Tree, cwd: Path, s: string): Result<Tree, DiskError> {
    match Resolve(cwd, s)
    case Err(e) => Err(e)
    case Ok(p) => MkdirAll(t, p)
  }

  function CreateFileAt(t: Tree, cwd: Path, s: string): Result<Tree, DiskError> {
    match Resolve(cwd, s)
    case Err(e) => Err(e)
    case Ok(p) => CreateFile(t, p)
  }

  function WriteFileAt(t: Tree, cwd: Path, s: string, d: FileData): Result<Tree, DiskError> {
    match Resolve(cwd, s)
    case Err(e) => Err(e)
    case Ok(p) => WriteFile(t, p, d)
  }

  function ReadFileAt(t: Tree, cwd: Path, s: string): Result<FileData, DiskError> {
    match Resolve(cwd, s)
    case Err(e) => Err(e)
    case Ok(p) => ReadFile(t, p)
  }

  function ReadDirAt(t: Tree, cwd: Path, s: string): Result<seq<DirEntry>, DiskError> {
    match Resolve(cwd, s)
    case Err(e) => Err(e)
    case Ok(p) => ReadDir(t, p)
  }

  /**
   * os.RemoveAll: the empty string is nothing to do; a last element `.` is
   * refused (EINVAL); the root ends in EBUSY; a file on the way answers
   * ENOTDIR; otherwise the subtree goes, and a missing one is no error.
   */
  function RemoveAllAt(t: Tree, cwd: Path, s: string): Result<Tree, DiskError> {
    if s == "" then Ok(t)
    else if EndsWithDot(s) then Err(Invalid)
    else
      var p := Locate(cwd, s);
      if p == [] then Err(Busy)
      else if Blocked(t, p) then Err(NotDir)
      else Ok(RemoveAll(t, p))
  }

  /** The tree after os.RemoveAll of a non-root path whose error is ignored. */
  function Cleared(t: Tree, p: Path): Tree {
    if Blocked(t, p) then t else RemoveAll(t, p)
  }

  function RenameAt(t: Tree, cwd: Path, src: string, dst: string): Result<Tree, DiskError> {
    match Resolve(cwd, src)
    case Err(e) => Err(e)
    case Ok(p) =>
      match Resolve(cwd, dst)
      case Err(e) => Err(e)
      case Ok(q) =>
        // Two different strings for one existing entry pass Go's SameFile test and rename(2) leaves it in place.
        if p == q && src != dst && At(t, p).Some? then Ok(t) else Rename(t, p, q)
  }

  /** A call that may also fail for a reason outside the tree. */
  function Try(fail: bool, r: Result<Tree, DiskError>): Result<Tree, DiskError> {
    if fail then Err(Denied) else r
  }

  /** The tree after a call whose error is ignored. */
  function Settle(t: Tree, r: Result<Tree, DiskError>): Tree {
    if r.Ok? then r.value else t
  }

  // ---------------------------------------------------------------- sorting names

  predicate IsLeast(s: set<string>, m: string) {
    m in s && forall x :: x in s ==> LexLeq(m, x)
  }

  lemma {:induction false} LeastExists(s: set<string>)
    requires s != {}
    ensures exists m :: IsLeast(s, m)
    decreases |s|
  {
    var y :| y in s;
    LexTotal(y, y);
    if s - {y} == {} {
      forall x | x in s
        ensures LexLeq(y, x)
      {
        assert x !in s - {y};
      }
      assert IsLeast(s, y);
    } else {
      LeastExists(s - {y});
      var m :| IsLeast(s - {y}, m);
      LexTotal(m, y);
      if LexLeq(m, y) {
        assert IsLeast(s, m);
      } else {
        forall x | x in s
          ensures LexLeq(y, x)
        {
          if x != y {
            LexTransitive(y, m, x);
          }
        }
        assert IsLeast(s, y);
      }
    }
  }

  lemma LeastUnique(s: set<string>)
    ensures forall a, b :: IsLeast(s, a) && IsLeast(s, b) ==> a == b
  {
    forall a, b | IsLeast(s, a) && IsLeast(s, b)
      ensures a == b
    {
      LexAntisymmetric(a, b);
    }
  }

  predicate Ascending(r: seq<string>) {
    forall i, j :: 0 <= i < j < |r| ==> LexLeq(r[i], r[j]) && r[i] != r[j]
  }

  /** The members of `s` in ascending order, each once. */
  function SortedNames(s: set<string>): (r: seq<string>)
    ensures |r| == |s|
    ensures forall x :: x in r <==> x in s
    ensures Ascending(r)
    decreases |s|
  {
    if s == {} then []
    else
      LeastExists(s);
      LeastUnique(s);
      var m :| IsLeast(s, m);
      var rest := SortedNames(s - {m});
      LeastFirst(s, m, rest);
      [m] + rest
  }

  /** The least member put before the others, sorted, keeps the order. */
  lemma LeastFirst(s: set<string>, m: string, rest: seq<string>)
    requires IsLeast(s, m)
    requires |rest| == |s - {m}| && (forall x :: x in rest <==> x in s - {m}) && Ascending(rest)
    ensures |[m] + rest| == |s| && (forall x :: x in [m] + rest <==> x in s) && Ascending([m] + rest)
  {
    forall i | 0 <= i < |rest| ensures LexLeq(m, rest[i]) && m != rest[i] {
      assert rest[i] in s - {m};
    }
    var r := [m] + rest;
    forall i, j | 0 <= i < j < |r| ensures LexLeq(r[i], r[j]) && r[i] != r[j] {
      if i > 0 {
        assert r[i] == rest[i - 1] && r[j] == rest[j - 1];
      } else {
        assert r[j] == rest[j - 1];
      }
    }
    forall x ensures x in r <==> x in s {
      assert x in r <==> x == m || x in rest;
    }
  }

  // ---------------------------------------------------------------- properties of the calls

  /** A successful MkdirAll leaves `p` a directory and only adds directories on the way to it. */
  lemma {:induction false} MkdirAllOk(t: Tree, p: Path)
    requires MkdirAll(t, p).Ok?
    ensures IsDirAt(MkdirAll(t, p).value, p)
    ensures forall k :: k in t ==> k in MkdirAll(t, p).value && MkdirAll(t, p).value[k] == t[k]
    ensures forall k :: k in MkdirAll(t, p).value && k !in t ==> Under(p, k) && MkdirAll(t, p).value[k] == Directory
    decreases |p|
  {
    if At(t, p).None? {
      var q := p[..|p| - 1];
      MkdirAllOk(t, q);
      var u := MkdirAll(t, p).value;
      forall k | k in u && k !in t ensures Under(p, k) && u[k] == Directory {
        if k != p {
          assert Under(q, k);
        }
      }
    }
  }

  /** MkdirAll fails only on a regular file on the way to `p`, with ENOTDIR, and succeeds when there is none. */
  lemma {:induction false} MkdirAllErr(t: Tree, p: Path)
    ensures MkdirAll(t, p).Err? ==> MkdirAll(t, p).error == NotDir && (IsFileAt(t, p) || Blocked(t, p))
    ensures !IsFileAt(t, p) && !Blocked(t, p) ==> MkdirAll(t, p).Ok?
    decreases |p|
  {
    if At(t, p).None? {
      MkdirAllErr(t, p[..|p| - 1]);
    }
  }

  /** In a proper tree, MkdirAll through a regular file fails with ENOTDIR. */
  lemma {:induction false} MkdirAllBlocked(t: Tree, p: Path)
    requires Proper(t) && Blocked(t, p)
    ensures MkdirAll(t, p) == Err(NotDir)
    decreases |p|
  {
    assert p !in t;
    var q := p[..|p| - 1];
    if !IsFileAt(t, q) {
      MkdirAllBlocked(t, q);
    }
  }

  /** MkdirAll at or below a directory `d` changes nothing outside `d`'s subtree. */
  lemma {:induction false} MkdirAllConfined(t: Tree, p: Path, d: Path)
    requires IsDirAt(t, d) && Under(p, d)
    requires MkdirAll(t, p).Ok?
    ensures Confined(t, MkdirAll(t, p).value, d)
    decreases |p|
  {
    if At(t, p).None? {
      assert p != d;
      var q := p[..|p| - 1];
      assert q[..|d|] == d;
      MkdirAllConfined(t, q, d);
      assert Below(p, d);
    }
  }

  /** Changing one path strictly below `d` keeps the rest of the tree. */
  lemma UpdateConfined(t: Tree, p: Path, n: Node, d: Path)
    requires Below(p, d)
    ensures Confined(t, t[p := n], d)
  {
  }

  /** After RemoveAll nothing is left at or below `p`, and everything else is as it was. */
  lemma RemoveAllSpec(t: Tree, p: Path)
    ensures forall k :: k in RemoveAll(t, p) ==> !Under(k, p)
    ensures forall k :: !Under(k, p) ==> At(RemoveAll(t, p), k) == At(t, k)
  {
  }

  lemma ConfinedTrans(t: Tree, u: Tree, v: Tree, d: Path)
    requires Confined(t, u, d) && Confined(u, v, d)
    ensures Confined(t, v, d)
  {
  }

  /** Writing through a handle at a path strictly below `d` keeps the rest of the tree. */
  lemma WriteConfined(t: Tree, p: Path, data: seq<Byte>, d: Path)
    requires Below(p, d)
    ensures Confined(t, Write(t, p, data), d)
  {
    if p in t && t[p].File? {
      UpdateConfined(t, p, File(Overwrite(t[p].data, data)), d);
    }
  }

  /** MkdirAll of an entry of an existing directory creates at most that entry. */
  lemma MkdirAllChild(t: Tree, p: Path)
    requires p != [] && IsDirAt(t, p[..|p| - 1])
    ensures MkdirAll(t, p) == if IsFileAt(t, p) then Err(NotDir) else Ok(if p in t then t else t[p := Directory])
  {
    assert MkdirAll(t, p[..|p| - 1]) == Ok(t);
  }

  /** os.WriteFile of an entry of an existing directory replaces that entry, unless it is a directory. */
  lemma WriteFileChild(t: Tree, p: Path, d: FileData)
    requires p != [] && IsDirAt(t, p[..|p| - 1])
    ensures WriteFile(t, p, d) == if IsDirAt(t, p) then Err(IsDir) else Ok(t[p := File(d)])
  {
  }

  /** After a move, what was at `src` followed by `s` is at `dst` followed by `s`. */
  lemma MoveAt(t: Tree, src: Path, dst: Path, s: Path)
    requires src != [] && dst != []
    ensures At(Move(t, src, dst), dst + s) == At(t, src + s)
  {
    SuffixInjective(src, dst);
    var u := Move(t, src, dst);
    var k := src + s;
    assert Under(k, src) && k[|src|..] == s;
    if k in t {
      assert dst + s in u;
    }
  }

  /** A move leaves every path outside its source and its destination as it was. */
  lemma MoveElsewhere(t: Tree, src: Path, dst: Path, k: Path)
    requires !Under(k, src) && !Under(k, dst)
    ensures At(Move(t, src, dst), k) == At(t, k)
  {
    SuffixInjective(src, dst);
  }

  /** After moving `d` to a different path `b` of the same length, nothing is at `d` and `b` holds what `d` held. */
  lemma MovedAway(t: Tree, d: Path, b: Path)
    requires d != [] && |b| == |d| && d != b
    ensures At(Move(t, d, b), d).None?
    ensures forall s :: At(Move(t, d, b), b + s) == At(t, d + s)
  {
    MoveVacates(t, d, b, d);
    forall s ensures At(Move(t, d, b), b + s) == At(t, d + s) {
      MoveAt(t, d, b, s);
    }
  }

  /** Moving `d` to `b` and then `b` or `n` to `d`, and clearing `b`, leaves every other path alone. */
  lemma SwapLeavesOthers(t: Tree, d: Path, n: Path, b: Path)
    ensures forall k :: !Under(k, d) && !Under(k, n) && !Under(k, b) ==>
              At(Move(t, d, b), k) == At(t, k) && At(Move(Move(t, d, b), b, d), k) == At(t, k) &&
              At(Cleared(Move(Move(t, d, b), n, d), b), k) == At(t, k)
  {
    var t1 := Move(t, d, b);
    forall k | !Under(k, d) && !Under(k, n) && !Under(k, b)
      ensures At(t1, k) == At(t, k) && At(Move(t1, b, d), k) == At(t, k) && At(Cleared(Move(t1, n, d), b), k) == At(t, k)
    {
      MoveElsewhere(t, d, b, k);
      MoveElsewhere(t1, b, d, k);
      MoveElsewhere(t1, n, d, k);
    }
  }

  /** A move leaves nothing at its source, outside the destination. */
  lemma MoveVacates(t: Tree, src: Path, dst: Path, k: Path)
    requires k != [] && Under(k, src) && !Under(k, dst)
    ensures At(Move(t, src, dst), k).None?
  {
    SuffixInjective(src, dst);
  }

  /** Moving `d` to `b` and back restores everything outside `b`. */
  lemma MoveBack(t: Tree, d: Path, b: Path)
    requires d != [] && b != []
    ensures forall k :: !Under(k, b) ==> At(Move(Move(t, d, b), b, d), k) == At(t, k)
  {
    var t1 := Move(t, d, b);
    forall k | !Under(k, b) ensures At(Move(t1, b, d), k) == At(t, k) {
      if Under(k, d) {
        var s := k[|d|..];
        assert k == d + s;
        MoveAt(t1, b, d, s);
        MoveAt(t, d, b, s);
      } else {
        MoveElsewhere(t1, b, d, k);
        MoveElsewhere(t, d, b, k);
      }
    }
  }

  /**
   * Three sibling locations: `d` moved to `b`, `n` moved to `d`, then `b`
   * removed. What was at `n` is now at `d`, nothing is left at `n` or `b`, and
   * everything else is as it was.
   */
  lemma MoveSwap(t: Tree, d: Path, n: Path, b: Path)
    requires d != [] && |n| == |d| && |b| == |d| && d != n && d != b && n != b
    ensures forall s :: At(RemoveAll(Move(Move(t, d, b), n, d), b), d + s) == At(t, n + s)
    ensures forall s :: At(RemoveAll(Move(Move(t, d, b), n, d), b), b + s).None?
    ensures forall s :: At(RemoveAll(Move(Move(t, d, b), n, d), b), n + s).None?
    ensures forall k :: !Under(k, d) && !Under(k, n) && !Under(k, b) ==>
              At(RemoveAll(Move(Move(t, d, b), n, d), b), k) == At(t, k)
  {
    var t1 := Move(t, d, b);
    var t2 := Move(t1, n, d);
    var v := RemoveAll(t2, b);
    RemoveAllSpec(t2, b);
    forall s ensures At(v, d + s) == At(t, n + s) {
      assert (d + s)[..|b|] == d && (n + s)[..|d|] == n && (n + s)[..|b|] == n;
      MoveAt(t1, n, d, s);
      MoveElsewhere(t, d, b, n + s);
    }
    forall s ensures At(v, b + s).None? {
      assert (b + s)[..|b|] == b;
    }
    forall s ensures At(v, n + s).None? {
      assert (n + s)[..|d|] == n && (n + s)[..|b|] == n;
      MoveVacates(t1, n, d, n + s);
    }
    forall k | !Under(k, d) && !Under(k, n) && !Under(k, b) ensures At(v, k) == At(t, k) {
      MoveElsewhere(t1, n, d, k);
      MoveElsewhere(t, d, b, k);
    }
  }

  /** MoveSwap followed by the removal of `n`, which the move has already emptied. */
  lemma MoveSwapClean(t: Tree, d: Path, n: Path, b: Path)
    requires d != [] && |n| == |d| && |b| == |d| && d != n && d != b && n != b
    ensures forall s :: At(RemoveAll(RemoveAll(Move(Move(t, d, b), n, d), b), n), d + s) == At(t, n + s)
    ensures forall s :: At(RemoveAll(RemoveAll(Move(Move(t, d, b), n, d), b), n), b + s).None?
    ensures forall s :: At(RemoveAll(RemoveAll(Move(Move(t, d, b), n, d), b), n), n + s).None?
  {
    var w := RemoveAll(Move(Move(t, d, b), n, d), b);
    MoveSwap(t, d, n, b);
    RemoveAllSpec(w, n);
    forall s ensures !Under(d + s, n) && !Under(b + s, n) {
      assert (d + s)[..|n|] == d && (b + s)[..|n|] == b;
    }
  }

  /** After a successful os.WriteFile the file reads back what was written, and writing it again changes nothing. */
  lemma WriteFileAtAgain(t: Tree, cwd: Path, s: string, d: FileData)
    requires WriteFileAt(t, cwd, s, d).Ok?
    ensures ReadFileAt(WriteFileAt(t, cwd, s, d).value, cwd, s) == Ok(d)
    ensures WriteFileAt(WriteFileAt(t, cwd, s, d).value, cwd, s, d) == WriteFileAt(t, cwd, s, d)
  {
    var p := Locate(cwd, s);
    var u := t[p := File(d)];
    assert WriteFile(t, p, d) == Ok(u);
    assert At(u, p) == Some(File(d));
    assert u[p := File(d)] == u;
  }

  /** Overwriting a file and then writing its old data back restores the tree. */
  lemma WriteFileAtRestore(t: Tree, cwd: Path, s: string, d: FileData, d0: FileData)
    requires ReadFileAt(t, cwd, s) == Ok(d0)
    ensures WriteFileAt(t, cwd, s, d).Ok?
    ensures ReadFileAt(WriteFileAt(t, cwd, s, d).value, cwd, s) == Ok(d)
    ensures WriteFileAt(WriteFileAt(t, cwd, s, d).value, cwd, s, d0) == Ok(t)
  {
    var p := Locate(cwd, s);
    assert p in t && t[p] == File(d0);
    var u := t[p := File(d)];
    assert WriteFile(t, p, d) == Ok(u);
    assert At(u, p) == Some(File(d));
    assert u[p := File(d0)] == t;
  }

  /** Creating the directory `d` changes nothing outside it. */
  lemma MadeOutside(t: Tree, d: Path)
    ensures forall k :: !Under(k, d) ==> At(if d in t then t else t[d := Directory], k) == At(t, k)
  {
  }

  /** A change confined below `d` that follows one outside-preserving step keeps everything outside `d`. */
  lemma OutsideThenConfined(t: Tree, t1: Tree, u: Tree, d: Path)
    requires forall k :: !Under(k, d) ==> At(t1, k) == At(t, k)
    requires Confined(t1, u, d)
    ensures forall k :: !Under(k, d) ==> At(u, k) == At(t, k)
  {
    forall k | !Under(k, d)
      ensures At(u, k) == At(t, k)
    {
      assert !Below(k, d);
    }
  }

  /** Two locations holding the same file read the same. */
  lemma SameFile(t: Tree, p: Path, u: Tree, q: Path)
    requires At(t, p) == At(u, q) && ReadFile(u, q).Ok?
    ensures ReadFile(t, p) == ReadFile(u, q)
  {
  }

  /** A rename of an existing entry to a free name in an existing directory moves it. */
  lemma RenameMoves(t: Tree, src: Path, dst: Path)
    requires At(t, src).Some? && src != dst && !Under(dst, src) && dst != []
    requires At(t, dst).None? && IsDirAt(t, dst[..|dst| - 1])
    ensures Rename(t, src, dst) == Ok(Move(t, src, dst))
  {
  }

  /** Whether a file blocks `p` depends only on what lies at the proper prefixes of `p`. */
  lemma {:induction false} BlockedKept(t: Tree, u: Tree, p: Path)
    requires forall k :: |k| < |p| && Under(p, k) ==> At(t, k) == At(u, k)
    ensures Blocked(t, p) == Blocked(u, p)
    decreases |p|
  {
    if |p| > 0 {
      var q := p[..|p| - 1];
      forall k | |k| < |q| && Under(q, k)
        ensures At(t, k) == At(u, k)
      {
        assert p[..|k|] == q[..|k|];
      }
      BlockedKept(t, u, q);
      assert Under(p, q);
    }
  }

  /** No file stands on the way to an entry of a reachable directory. */
  lemma ReachableChild(t: Tree, p: Path, x: string)
    requires Reachable(t, p)
    ensures !Blocked(t, p + [x])
  {
    assert (p + [x])[..|p|] == p;
  }

  /** A directory stays reachable while nothing changes at paths no longer than its own. */
  lemma ReachableKept(t: Tree, u: Tree, p: Path)
    requires Reachable(t, p)
    requires forall k :: |k| <= |p| ==> At(u, k) == At(t, k)
    ensures Reachable(u, p)
  {
    BlockedKept(t, u, p);
  }

  /**
   * MkdirAll with no file at or on the way to `p` succeeds and leaves `p` a
   * reachable directory; it adds directories only at `p` and its ancestors,
   * and only where there was nothing.
   */
  lemma {:induction false} MkdirAllMade(t: Tree, p: Path)
    requires !Blocked(t, p) && !IsFileAt(t, p)
    ensures MkdirAll(t, p).Ok? && Reachable(MkdirAll(t, p).value, p)
    ensures forall k :: At(MkdirAll(t, p).value, k) == At(t, k) ||
                        (Under(p, k) && At(t, k).None? && IsDirAt(MkdirAll(t, p).value, k))
    decreases |p|
  {
    if At(t, p).None? {
      var q := p[..|p| - 1];
      MkdirAllMade(t, q);
      var u := MkdirAll(t, q).value;
      var v := u[p := Directory];
      assert MkdirAll(t, p) == Ok(v);
      BlockedKept(u, v, q);
      forall k ensures At(v, k) == At(t, k) || (Under(p, k) && At(t, k).None? && IsDirAt(v, k)) {
        if k != p && At(v, k) != At(t, k) {
          assert Under(q, k);
          assert p[..|k|] == q[..|k|];
        }
      }
    }
  }

  /** The swap of siblings `x`, `z` through `y` in a reachable directory leaves no file on the way to `y` or `z`. */
  lemma SwapReachable(t: Tree, r: Path, x: string, y: string, z: string)
    requires Reachable(t, r)
    ensures var t2 := Move(Move(t, r + [x], r + [y]), r + [z], r + [x]);
            !Blocked(t2, r + [y]) && !Blocked(RemoveAll(t2, r + [y]), r + [z])
  {
    var t1 := Move(t, r + [x], r + [y]);
    var t2 := Move(t1, r + [z], r + [x]);
    forall k | |k| <= |r|
      ensures At(t2, k) == At(t, k) && At(RemoveAll(t2, r + [y]), k) == At(t, k)
    {
      assert !Under(k, r + [x]) && !Under(k, r + [y]) && !Under(k, r + [z]);
      MoveElsewhere(t, r + [x], r + [y], k);
      MoveElsewhere(t1, r + [z], r + [x], k);
    }
    ReachableKept(t, t2, r);
    ReachableChild(t2, r, y);
    ReachableKept(t, RemoveAll(t2, r + [y]), r);
    ReachableChild(RemoveAll(t2, r + [y]), r, z);
  }

  /** A successful rename between two different paths is a move of an existing entry. */
  lemma RenameMoved(t: Tree, src: Path, dst: Path)
    requires src != dst && Rename(t, src, dst).Ok?
    ensures At(t, src).Some? && Rename(t, src, dst) == Ok(Move(t, src, dst))
  {
  }

  /**
   * RemoveAll of the rendering of an absolute location: the root is busy, a
   * file on the way answers ENOTDIR, and otherwise the subtree goes.
   */
  lemma RemoveAllRendered(t: Tree, cwd: Path, cs: Path)
    requires PlainPath(cs)
    ensures RemoveAllAt(t, cwd, Render(Loc(true, cs)))
              == if cs == [] then Err(Busy) else if Blocked(t, cs) then Err(NotDir) else Ok(RemoveAll(t, cs))
    ensures cs != [] ==> Settle(t, RemoveAllAt(t, cwd, Render(Loc(true, cs)))) == Cleared(t, cs)
  {
    LocateRender(cwd, cs);
    if cs != [] {
      RenderedNoDot(cs);
    }
  }

  /** The rendering of a non-root absolute location does not end in `.`. */
  lemma RenderedNoDot(cs: Path)
    requires PlainPath(cs) && cs != []
    ensures Render(Loc(true, cs)) != "" && !EndsWithDot(Render(Loc(true, cs)))
  {
    var s := Render(Loc(true, cs));
    var last := cs[|cs| - 1];
    assert Plain(last);
    if |cs| == 1 {
      assert s == "/" + last;
    } else {
      GlueConcat(cs[..|cs| - 1], [last]);
      assert cs[..|cs| - 1] + [last] == cs;
      assert s == "/" + Glue(cs[..|cs| - 1]) + "/" + last;
    }
    assert s[|s| - |last|..] == last;
  }

  // ---------------------------------------------------------------- the file system as a mutable object

  function Apply(t: Tree, r: Result<Tree, DiskError>): (Option<DiskError>, Tree) {
    match r
    case Ok(u) => (None, u)
    case Err(e) => (Some(e), t)
  }

  function WriteAt(t: Tree, cwd: Path, s: string, data: seq<Byte>): Tree {
    match Resolve(cwd, s)
    case Err(_) => t
    case Ok(p) => Write(t, p, data)
  }

  /**
   * The process's view of the file system: its working directory and the tree.
   * Each method is one os call; `fail` makes a call fail for a reason the tree
   * does not explain, leaving the tree as it was.
   */
  class Disk {
    const cwd: Path
    var tree: Tree

    constructor (cwd: Path, tree: Tree)
      ensures this.cwd == cwd && this.tree == tree
    {
      this.cwd := cwd;
      this.tree := tree;
    }

    method Stat(path: string) returns (r: Result<Node, DiskError>)
      ensures r == StatAt(tree, cwd, path)
    {
      r := StatAt(tree, cwd, path);
    }

    method ReadFile(path: string) returns (r: Result<FileData, DiskError>)
      ensures r == ReadFileAt(tree, cwd, path)
    {
      r := ReadFileAt(tree, cwd, path);
    }

    method ReadDir(path: string) returns (r: Result<seq<DirEntry>, DiskError>)
      ensures r == ReadDirAt(tree, cwd, path)
    {
      r := ReadDirAt(tree, cwd, path);
    }

    method MkdirAll(path: string, fail: bool) returns (err: Option<DiskError>)
      modifies this
      ensures (err, tree) == Apply(old(tree), Try(fail, MkdirAllAt(old(tree), cwd, path)))
    {
      var outcome := Apply(tree, Try(fail, MkdirAllAt(tree, cwd, path)));
      err, tree := outcome.0, outcome.1;
    }

    /** os.OpenFile with O_CREATE|O_WRONLY. */
    method Create(path: string, fail: bool) returns (err: Option<DiskError>)
      modifies this
      ensures (err, tree) == Apply(old(tree), Try(fail, CreateFileAt(old(tree), cwd, path)))
    {
      var outcome := Apply(tree, Try(fail, CreateFileAt(tree, cwd, path)));
      err, tree := outcome.0, outcome.1;
    }

    /** io.Copy into a file opened by Create; a failed copy is modelled as writing nothing. */
    method Write(path: string, data: seq<Byte>, fail: bool) returns (ok: bool)
      modifies this
      ensures ok == !fail
      ensures tree == if fail then old(tree) else WriteAt(old(tree), cwd, path, data)
    {
      ok := !fail;
      if ok {
        tree := WriteAt(tree, cwd, path, data);
      }
    }

    method WriteFile(path: string, d: FileData, fail: bool) returns (err: Option<DiskError>)
      modifies this
      ensures (err, tree) == Apply(old(tree), Try(fail, WriteFileAt(old(tree), cwd, path, d)))
    {
      var outcome := Apply(tree, Try(fail, WriteFileAt(tree, cwd, path, d)));
      err, tree := outcome.0, outcome.1;
    }

    method RemoveAll(path: string) returns (err: Option<DiskError>)
      modifies this
      ensures (err, tree) == Apply(old(tree), RemoveAllAt(old(tree), cwd, path))
    {
      var outcome := Apply(tree, RemoveAllAt(tree, cwd, path));
      err, tree := outcome.0, outcome.1;
    }

    method Rename(src: string, dst: string, fail: bool) returns (err: Option<DiskError>)
      modifies this
      ensures (err, tree) == Apply(old(tree), Try(fail, RenameAt(old(tree), cwd, src, dst)))
    {
      var outcome := Apply(tree, Try(fail, RenameAt(tree, cwd, src, dst)));
      err, tree := outcome.0, outcome.1;
    }
  }
}
