/**
 * Lexical slash-separated paths, as Go's path/filepath handles them on a Unix
 * system: Split into components, Clean, Join, Dir, and the location a path
 * names once the operating system resolves it against a working directory.
 */
module Paths {
  import opened Strings

  predicate SlashFree(c: string) {
    '/' !in c
  }

  /** A component that names a directory entry: not empty, not `.` or `..`, no separator. */
  predicate Plain(c: string) {
    c != "" && c != "." && c != ".." && SlashFree(c)
  }

  /** An absolute location: the components below the root directory. */
  predicate PlainPath(p: seq<string>) {
    forall i :: 0 <= i < |p| ==> Plain(p[i])
  }

  predicate IsAbs(s: string) {
    |s| > 0 && s[0] == '/'
  }

  /** The pieces of `s` between separators; `""` gives `[""]`, `"/a"` gives `["", "a"]`. */
  function Split(s: string): (parts: seq<string>)
    ensures |parts| >= 1
    ensures forall i :: 0 <= i < |parts| ==> SlashFree(parts[i])
  {
    if s == [] then [""]
    else
      var rest := Split(s[1..]);
      if s[0] == '/' then [""] + rest
      else [[s[0]] + rest[0]] + rest[1..]
  }

  /** strings.Join(cs, "/") for a non-empty list. */
  function Glue(cs: seq<string>): string
    requires |cs| >= 1
  {
    if |cs| == 1 then cs[0] else cs[0] + "/" + Glue(cs[1..])
  }

  /**
   * One step of lexical cleaning: `""` and `.` vanish, `..` removes the preceding
   * ordinary component, is dropped at the root of an absolute path and is kept at
   * the start of a relative one.
   */
  function Step(rooted: bool, acc: seq<string>, c: string): seq<string> {
    if c == "" || c == "." then acc
    else if c == ".." then
      if |acc| > 0 && acc[|acc| - 1] != ".." then acc[..|acc| - 1]
      else if rooted then acc
      else acc + [".."]
    else acc + [c]
  }

  /** The components `cs` applied one by one, left to right, to `acc`. */
  function Fold(rooted: bool, acc: seq<string>, cs: seq<string>): seq<string>
    decreases |cs|
  {
    if cs == [] then acc
    else Step(rooted, Fold(rooted, acc, cs[..|cs| - 1]), cs[|cs| - 1])
  }

  /** A lexically cleaned path: whether it is rooted, and its components. */
  datatype Loc = Loc(rooted: bool, comps: seq<string>)

  function CleanLoc(s: string): Loc {
    Loc(IsAbs(s), Fold(IsAbs(s), [], Split(s)))
  }

  /** The text of a cleaned path; the empty path is `/` or `.`. */
  function Render(l: Loc): string {
    if l.comps == [] then (if l.rooted then "/" else ".")
    else (if l.rooted then "/" else "") + Glue(l.comps)
  }

  /** filepath.Clean */
  function Clean(s: string): string {
    Render(CleanLoc(s))
  }

  /** filepath.Join of two elements: leading empty elements are skipped. */
  function Join(a: string, b: string): string {
    if a != "" then Clean(a + "/" + b)
    else if b != "" then Clean(b)
    else ""
  }

  /** filepath.Join of three elements. */
  function Join3(a: string, b: string, c: string): string {
    if a != "" then Clean(a + "/" + b + "/" + c)
    else Join(b, c)
  }

  /** The length of `s` up to and including its last separator (0 when there is none). */
  function LastSlashEnd(s: string): (k: nat)
    ensures k <= |s|
    decreases |s|
  {
    if s == [] then 0
    else if s[|s| - 1] == '/' then |s|
    else LastSlashEnd(s[..|s| - 1])
  }

  /** filepath.Dir: everything before the last separator, cleaned. */
  function Dir(s: string): string {
    Clean(s[..LastSlashEnd(s)])
  }

  /**
   * The directory entry a path names once the operating system resolves it:
   * relative paths start from the working directory `cwd`; symbolic links are
   * not modelled, so `..` is resolved lexically.
   */
  function Locate(cwd: seq<string>, s: string): seq<string> {
    Fold(true, if IsAbs(s) then [] else cwd, Split(s))
  }

  /** `p` lies at or below `d`. */
  predicate Under(p: seq<string>, d: seq<string>) {
    |d| <= |p| && p[..|d|] == d
  }

  /**
   * `p` lies in the parent of `d` (or below it), under an entry whose name starts
   * with the name of `d`: what a string-prefix test against `d` lets through.
   */
  predicate SiblingPrefix(p: seq<string>, d: seq<string>)
    requires |d| >= 1
  {
    |d| <= |p| && p[..|d| - 1] == d[..|d| - 1] && HasPrefix(p[|d| - 1], d[|d| - 1])
  }

  // ------------------------------------------------------------ Split and Glue

  lemma {:induction false} SplitSlashFree(c: string)
    requires SlashFree(c)
    ensures Split(c) == [c]
  {
    if c != [] {
      SplitSlashFree(c[1..]);
      assert [c[0]] + c[1..] == c;
    }
  }

  /** Splitting distributes over a separator. */
  lemma {:induction false} SplitConcat(a: string, b: string)
    ensures Split(a + "/" + b) == Split(a) + Split(b)
  {
    var s := a + "/" + b;
    if a == [] {
      assert s == "/" + b && s[1..] == b;
    } else {
      assert s[1..] == a[1..] + "/" + b;
      SplitConcat(a[1..], b);
      var x, y := Split(a[1..]), Split(b);
      assert s[0] == a[0];
      if a[0] == '/' {
        assert Split(s) == [""] + (x + y);
        assert Split(a) == [""] + x;
        AppendAssoc([""], x, y);
      } else {
        var h := [[a[0]] + x[0]];
        assert (x + y)[0] == x[0] && (x + y)[1..] == x[1..] + y;
        assert Split(s) == h + (x[1..] + y);
        assert Split(a) == h + x[1..];
        AppendAssoc(h, x[1..], y);
      }
    }
  }

  /** Split undoes Glue when no component holds a separator. */
  lemma {:induction false} GlueSplit(cs: seq<string>)
    requires |cs| >= 1 && forall i :: 0 <= i < |cs| ==> SlashFree(cs[i])
    ensures Split(Glue(cs)) == cs
  {
    if |cs| == 1 {
      SplitSlashFree(cs[0]);
    } else {
      GlueSplit(cs[1..]);
      SplitSlashFree(cs[0]);
      SplitConcat(cs[0], Glue(cs[1..]));
      assert [cs[0]] + cs[1..] == cs;
    }
  }

  lemma {:induction false} GlueConcat(xs: seq<string>, ys: seq<string>)
    requires |xs| >= 1 && |ys| >= 1
    ensures Glue(xs + ys) == Glue(xs) + "/" + Glue(ys)
  {
    if |xs| == 1 {
      assert (xs + ys)[1..] == ys;
    } else {
      assert (xs + ys)[1..] == xs[1..] + ys;
      GlueConcat(xs[1..], ys);
    }
  }

  lemma GlueCons(c: string, cs: seq<string>)
    requires |cs| >= 1
    ensures Glue([c] + cs) == c + "/" + Glue(cs)
  {
    assert ([c] + cs)[1..] == cs;
  }

  /** Text appended to a glued path extends its last component. */
  lemma {:induction false} GlueSuffix(cs: seq<string>, x: string)
    requires |cs| >= 1
    ensures Glue(cs) + x == Glue(cs[..|cs| - 1] + [cs[|cs| - 1] + x])
  {
    if |cs| > 1 {
      var rest := cs[1..];
      var renamed := cs[..|cs| - 1] + [cs[|cs| - 1] + x];
      var restRenamed := rest[..|rest| - 1] + [rest[|rest| - 1] + x];
      GlueSuffix(rest, x);
      assert renamed[0] == cs[0] && renamed[1..] == restRenamed;
      calc {
        Glue(cs) + x;
        cs[0] + "/" + Glue(rest) + x;
        cs[0] + "/" + (Glue(rest) + x);
        cs[0] + "/" + Glue(restRenamed);
        Glue(renamed);
      }
    }
  }

  /** The last separator of `X/y` sits just before `y`. */
  lemma {:induction false} LastSlashEndOf(x: string, y: string)
    requires SlashFree(y)
    ensures LastSlashEnd(x + "/" + y) == |x| + 1
    decreases |y|
  {
    var s := x + "/" + y;
    if y != [] {
      assert s[..|s| - 1] == x + "/" + y[..|y| - 1];
      LastSlashEndOf(x, y[..|y| - 1]);
    }
  }

  // ------------------------------------------------------------ Fold

  lemma {:induction false} FoldAppend(rooted: bool, acc: seq<string>, xs: seq<string>, ys: seq<string>)
    ensures Fold(rooted, acc, xs + ys) == Fold(rooted, Fold(rooted, acc, xs), ys)
    decreases |ys|
  {
    if ys == [] {
      assert xs + ys == xs;
    } else {
      assert (xs + ys)[..|xs + ys| - 1] == xs + ys[..|ys| - 1];
      FoldAppend(rooted, acc, xs, ys[..|ys| - 1]);
    }
  }

  lemma FoldCons(rooted: bool, acc: seq<string>, c: string, cs: seq<string>)
    ensures Fold(rooted, acc, [c] + cs) == Fold(rooted, Step(rooted, acc, c), cs)
  {
    FoldAppend(rooted, acc, [c], cs);
    assert [c][..0] == [];
  }

  /** Plain components are simply appended. */
  lemma {:induction false} FoldPlain(rooted: bool, acc: seq<string>, cs: seq<string>)
    requires PlainPath(cs)
    ensures Fold(rooted, acc, cs) == acc + cs
    decreases |cs|
  {
    if cs != [] {
      FoldPlain(rooted, acc, cs[..|cs| - 1]);
      assert acc + cs[..|cs| - 1] + [cs[|cs| - 1]] == acc + cs;
    }
  }

  /** Cleaning against the root yields a location made of plain components. */
  lemma {:induction false} FoldRootedPlain(acc: seq<string>, xs: seq<string>)
    requires PlainPath(acc)
    requires forall i :: 0 <= i < |xs| ==> SlashFree(xs[i])
    ensures PlainPath(Fold(true, acc, xs))
    decreases |xs|
  {
    if xs != [] {
      FoldRootedPlain(acc, xs[..|xs| - 1]);
    }
  }

  // ------------------------------------------------------------ Clean and Locate

  /** A location whose `..` components all come first, and only in a relative path. */
  predicate Normal(l: Loc) {
    (forall i :: 0 <= i < |l.comps| ==> Plain(l.comps[i]) || (!l.rooted && l.comps[i] == ".."))
    && (forall i, j :: 0 <= i < j < |l.comps| && l.comps[j] == ".." ==> l.comps[i] == "..")
  }

  lemma {:induction false} FoldNormal(rooted: bool, xs: seq<string>)
    requires forall i :: 0 <= i < |xs| ==> SlashFree(xs[i])
    ensures Normal(Loc(rooted, Fold(rooted, [], xs)))
    decreases |xs|
  {
    if xs != [] {
      FoldNormal(rooted, xs[..|xs| - 1]);
    }
  }

  /** Cleaning a normal location changes nothing. */
  lemma {:induction false} FoldOfNormal(l: Loc)
    requires Normal(l)
    ensures Fold(l.rooted, [], l.comps) == l.comps
    decreases |l.comps|
  {
    var cs := l.comps;
    if cs != [] {
      var init := cs[..|cs| - 1];
      var c := cs[|cs| - 1];
      assert init + [c] == cs;
      NormalInit(l.rooted, init, c);
      FoldOfNormal(Loc(l.rooted, init));
      StepNormal(l.rooted, init, c);
    }
  }

  lemma NormalInit(rooted: bool, init: seq<string>, c: string)
    requires Normal(Loc(rooted, init + [c]))
    ensures Normal(Loc(rooted, init))
  {
    var cs := init + [c];
    assert forall i :: 0 <= i < |init| ==> init[i] == cs[i];
  }

  /** Cleaning appends the last component of a normal location unchanged. */
  lemma StepNormal(rooted: bool, init: seq<string>, c: string)
    requires Normal(Loc(rooted, init + [c]))
    ensures Step(rooted, init, c) == init + [c]
  {
    var cs := init + [c];
    assert cs[|init|] == c;
    if c == ".." {
      assert !rooted;
      if |init| > 0 {
        assert cs[|init| - 1] == "..";
      }
    } else {
      assert Plain(c);
    }
  }

  lemma RenderAbs(l: Loc)
    requires Normal(l)
    ensures IsAbs(Render(l)) == l.rooted
  {
    if !l.rooted && l.comps != [] {
      assert Glue(l.comps)[0] == l.comps[0][0];
    }
  }

  /** Split of a rendered location: its components, after a leading `""` when rooted. */
  lemma RenderSplit(l: Loc)
    requires Normal(l) && l.comps != []
    ensures Split(Render(l)) == (if l.rooted then [""] else []) + l.comps
  {
    var cs := l.comps;
    assert forall i :: 0 <= i < |cs| ==> SlashFree(cs[i]) by {
      forall i | 0 <= i < |cs|
        ensures SlashFree(cs[i])
      {
        assert Plain(cs[i]) || cs[i] == "..";
      }
    }
    GlueSplit(cs);
    if l.rooted {
      SplitRooted(Glue(cs));
    } else {
      assert Render(l) == Glue(cs);
      assert [] + cs == cs;
    }
  }

  lemma SplitRooted(g: string)
    ensures Split("/" + g) == [""] + Split(g)
  {
    assert ("/" + g)[1..] == g;
  }

  /** Cleaning a rendered normal location gives it back. */
  lemma CleanRender(l: Loc)
    requires Normal(l)
    ensures CleanLoc(Render(l)) == l
  {
    RenderAbs(l);
    if l.comps == [] {
      if l.rooted {
        assert Split("") == [""];
        assert Render(l) == "/" && Split("/") == ["", ""];
      } else {
        assert Split("") == [""];
        assert "."[1..] == [] && "."[0] == '.';
        assert Split(".") == [['.'] + Split("")[0]] + Split("")[1..];
        assert ['.'] + "" == "." && [""][1..] == [];
        assert Split(".") == ["."];
        assert Render(l) == ".";
      }
    } else {
      RenderSplit(l);
      FoldOfNormal(l);
      if l.rooted {
        FoldAppend(true, [], [""], l.comps);
      } else {
        assert [] + l.comps == l.comps;
      }
    }
  }

  /** Clean is idempotent. */
  lemma CleanIdempotent(s: string)
    ensures Clean(Clean(s)) == Clean(s)
  {
    FoldNormal(IsAbs(s), Split(s));
    CleanRender(CleanLoc(s));
  }

  /** A rendered absolute location names exactly its components. */
  lemma LocateRender(cwd: seq<string>, cs: seq<string>)
    requires PlainPath(cs)
    ensures IsAbs(Render(Loc(true, cs)))
    ensures Locate(cwd, Render(Loc(true, cs))) == cs
  {
    var l := Loc(true, cs);
    if cs == [] {
      assert Split("") == [""];
      assert "/"[1..] == [];
      assert Render(l) == "/" && Split("/") == ["", ""];
      assert ["", ""][..1] == [""];
      assert Fold(true, [], [""]) == [];
    } else {
      RenderSplit(l);
      FoldAppend(true, [], [""], cs);
      FoldPlain(true, [], cs);
    }
  }

  /** An absolute path resolves to its cleaned components, which are plain. */
  lemma LocateAbs(cwd: seq<string>, s: string)
    requires IsAbs(s)
    ensures CleanLoc(s) == Loc(true, Locate(cwd, s))
    ensures PlainPath(Locate(cwd, s))
  {
    FoldRootedPlain([], Split(s));
  }

  /** Cleaning an absolute path renders its location, and names the same place. */
  lemma CleanAbs(cwd: seq<string>, s: string)
    requires IsAbs(s)
    ensures PlainPath(Locate(cwd, s))
    ensures Clean(s) == Render(Loc(true, Locate(cwd, s)))
    ensures Locate(cwd, Clean(s)) == Locate(cwd, s)
  {
    LocateAbs(cwd, s);
    LocateRender(cwd, Locate(cwd, s));
  }

  /** Joining anything onto an absolute path gives the rendering of an absolute location. */
  lemma JoinAbs(cwd: seq<string>, a: string, b: string)
    requires IsAbs(a)
    ensures IsAbs(Join(a, b)) && PlainPath(Locate(cwd, Join(a, b)))
    ensures Join(a, b) == Render(Loc(true, Locate(cwd, Join(a, b))))
  {
    var s := a + "/" + b;
    assert s[0] == a[0];
    CleanAbs(cwd, s);
    LocateRender(cwd, Locate(cwd, s));
  }

  /** filepath.Join(s, "") names `s` itself. */
  lemma LocateJoinEmpty(cwd: seq<string>, s: string)
    requires IsAbs(s)
    ensures Locate(cwd, Join(s, "")) == Locate(cwd, s)
  {
    var x := s + "/" + "";
    assert x[0] == s[0];
    CleanAbs(cwd, x);
    SplitConcat(s, "");
    assert Split("") == [""];
    FoldAppend(true, [], Split(s), [""]);
    assert [""][..0] == [];
  }

  /** filepath.Join(s, "..") names the parent of the absolute location `s` renders. */
  lemma JoinParent(cs: seq<string>)
    requires PlainPath(cs) && |cs| >= 1
    ensures Join(Render(Loc(true, cs)), "..") == Render(Loc(true, cs[..|cs| - 1]))
  {
    var s := Render(Loc(true, cs));
    LocateRender([], cs);
    var x := s + "/" + "..";
    assert x[0] == s[0];
    SplitConcat(s, "..");
    SplitSlashFree("..");
    var parts := Split(s) + [".."];
    assert parts[..|parts| - 1] == Split(s);
    assert Fold(true, [], parts) == Step(true, cs, "..");
  }

  /** Joining a plain name onto an absolute path renders the path one level down. */
  lemma JoinShape(cwd: seq<string>, s: string, c: string)
    requires IsAbs(s) && Plain(c)
    ensures Join(s, c) == Render(Loc(true, Locate(cwd, s) + [c]))
  {
    LocateAbs(cwd, s);
    SplitConcat(s, c);
    SplitSlashFree(c);
    assert (Split(s) + [c])[..|Split(s)|] == Split(s);
  }

  /** filepath.Join(s, c) names the entry `c` of the directory `s`. */
  lemma LocateJoin(cwd: seq<string>, s: string, c: string)
    requires IsAbs(s) && Plain(c)
    ensures IsAbs(Join(s, c))
    ensures Locate(cwd, Join(s, c)) == Locate(cwd, s) + [c]
  {
    JoinShape(cwd, s, c);
    LocateAbs(cwd, s);
    LocateRender(cwd, Locate(cwd, s) + [c]);
  }

  /** filepath.Join(s, b, c) names the entry `c` of the entry `b` of `s`. */
  lemma LocateJoin3(cwd: seq<string>, s: string, b: string, c: string)
    requires IsAbs(s) && Plain(b) && Plain(c)
    ensures Locate(cwd, Join3(s, b, c)) == Locate(cwd, s) + [b, c]
  {
    var x := s + "/" + b + "/" + c;
    LocateAbs(cwd, s);
    SplitConcat(s, b);
    SplitConcat(s + "/" + b, c);
    SplitSlashFree(b);
    SplitSlashFree(c);
    assert Split(x) == Split(s) + [b, c];
    FoldAppend(true, [], Split(s), [b, c]);
    FoldPlain(true, Locate(cwd, s), [b, c]);
    LocateAbs(cwd, x);
    LocateRender(cwd, Locate(cwd, x));
  }

  lemma RenderSuffix(cs: seq<string>, x: string)
    requires |cs| >= 1
    ensures Render(Loc(true, cs)) + x == Render(Loc(true, cs[..|cs| - 1] + [cs[|cs| - 1] + x]))
  {
    var g := Glue(cs);
    GlueSuffix(cs, x);
    assert ("/" + g) + x == "/" + (g + x);
  }

  /** Appending text to a joined path renames its last entry: `<s>/<c><x>`. */
  lemma LocateJoinSuffix(cwd: seq<string>, s: string, c: string, x: string)
    requires IsAbs(s) && Plain(c) && Plain(c + x)
    ensures IsAbs(Join(s, c) + x)
    ensures Locate(cwd, Join(s, c) + x) == Locate(cwd, s) + [c + x]
  {
    var p := Locate(cwd, s);
    LocateAbs(cwd, s);
    var cs := p + [c];
    JoinShape(cwd, s, c);
    RenderSuffix(cs, x);
    assert cs[..|cs| - 1] + [cs[|cs| - 1] + x] == p + [c + x];
    assert PlainPath(p + [c + x]);
    LocateRender(cwd, p + [c + x]);
  }

  /** `/<init>/` names `init`. */
  lemma LocateTrailingSlash(cwd: seq<string>, init: seq<string>)
    requires PlainPath(init) && |init| >= 1
    ensures Locate(cwd, "/" + Glue(init) + "/") == init
  {
    var d := "/" + Glue(init) + "/";
    assert Split(d) == [""] + init + [""] by {
      RenderSplit(Loc(true, init));
      SplitConcat("/" + Glue(init), "");
      assert d == ("/" + Glue(init)) + "/" + "";
    }
    assert IsAbs(d);
    assert Fold(true, [], [""] + init + [""]) == init by {
      FoldAppend(true, [], [""] + init, [""]);
      FoldAppend(true, [], [""], init);
      FoldPlain(true, [], init);
    }
  }

  /** The directory of a rendered absolute location names its parent. */
  lemma LocateDir(cwd: seq<string>, cs: seq<string>)
    requires PlainPath(cs) && |cs| >= 1
    ensures IsAbs(Dir(Render(Loc(true, cs))))
    ensures Locate(cwd, Dir(Render(Loc(true, cs)))) == cs[..|cs| - 1]
  {
    var init := cs[..|cs| - 1];
    var last := cs[|cs| - 1];
    var s := Render(Loc(true, cs));
    var d := s[..LastSlashEnd(s)];
    if |cs| == 1 {
      assert s == "" + "/" + cs[0];
      LastSlashEndOf("", cs[0]);
      assert d == "/";
      LocateAbs(cwd, d);
      LocateRender(cwd, []);
      assert Split("") == [""];
      assert Split("/") == ["", ""];
    } else {
      assert s == ("/" + Glue(init)) + "/" + last by {
        GlueConcat(init, [last]);
        assert init + [last] == cs;
      }
      LastSlashEndOf("/" + Glue(init), last);
      assert d == "/" + Glue(init) + "/";
      LocateTrailingSlash(cwd, init);
      LocateAbs(cwd, d);
      LocateRender(cwd, init);
    }
    CleanAbs(cwd, d);
    LocateRender(cwd, Locate(cwd, d));
  }

  // ------------------------------------------------------------ the prefix test

  /**
   * A string prefix of a glued path fixes every component but the last, and the
   * last one only up to a prefix.
   */
  lemma {:induction false} GluePrefix(lc: seq<string>, dc: seq<string>)
    requires |lc| >= 1 && |dc| >= 1
    requires forall i :: 0 <= i < |lc| ==> SlashFree(lc[i])
    requires forall i :: 0 <= i < |dc| ==> SlashFree(dc[i])
    requires HasPrefix(Glue(lc), Glue(dc))
    ensures |dc| <= |lc| && lc[..|dc| - 1] == dc[..|dc| - 1] && HasPrefix(lc[|dc| - 1], dc[|dc| - 1])
    decreases |dc|
  {
    var g := Glue(lc);
    var d0 := dc[0];
    var l0 := lc[0];
    if |lc| > 1 {
      assert g == l0 + "/" + Glue(lc[1..]);
      assert g[|l0|] == '/';
    }
    if |dc| == 1 {
      assert g[..|d0|] == l0[..|d0|];
    } else {
      var gd := Glue(dc);
      assert gd == d0 + "/" + Glue(dc[1..]);
      assert gd[|d0|] == '/';
      assert |l0| == |d0|;
      assert l0 == g[..|l0|] == gd[..|d0|] == d0;
      assert |lc| > 1;
      var n := |l0| + 1;
      assert Glue(lc[1..]) == g[n..];
      assert Glue(dc[1..]) == gd[n..];
      assert HasPrefix(Glue(lc[1..]), Glue(dc[1..]));
      GluePrefix(lc[1..], dc[1..]);
      assert lc[..|dc| - 1] == [l0] + lc[1..][..|dc[1..]| - 1];
      assert dc[..|dc| - 1] == [d0] + dc[1..][..|dc[1..]| - 1];
    }
  }

  /**
   * The traversal guard of extractTar/extractZip, `HasPrefix(Join(dest,
   * Clean(name)), dest)`, as written: for an absolute destination the written
   * entry stays in the destination's parent, below an entry whose name starts
   * with the destination's name.
   */
  lemma GuardConfines(cwd: seq<string>, dcs: seq<string>, name: string)
    requires PlainPath(dcs) && |dcs| >= 1
    requires HasPrefix(Join(Render(Loc(true, dcs)), Clean(name)), Render(Loc(true, dcs)))
    ensures SiblingPrefix(Locate(cwd, Join(Render(Loc(true, dcs)), Clean(name))), dcs)
  {
    var dest := Render(Loc(true, dcs));
    var x := dest + "/" + Clean(name);
    var target := Join(dest, Clean(name));
    assert target == Clean(x);
    assert IsAbs(x);
    LocateAbs(cwd, x);
    var lcs := Locate(cwd, x);
    LocateRender(cwd, lcs);
    assert Glue(dcs)[0] == dcs[0][0];
    assert lcs != [];
    assert target == "/" + Glue(lcs) && dest == "/" + Glue(dcs);
    assert HasPrefix(Glue(lcs), Glue(dcs)) by {
      assert target[1..] == Glue(lcs);
      assert target[..|dest|] == dest;
      assert target[1..][..|dest| - 1] == dest[1..];
      assert dest[1..] == Glue(dcs);
    }
    GluePrefix(lcs, dcs);
  }

  /** A rendered location of plain components is already clean. */
  lemma CleanPlain(rooted: bool, cs: seq<string>)
    requires PlainPath(cs)
    ensures Clean(Render(Loc(rooted, cs))) == Render(Loc(rooted, cs))
  {
    assert Normal(Loc(rooted, cs));
    CleanRender(Loc(rooted, cs));
  }

  /** Joining a relative path of plain components onto an absolute one concatenates them. */
  lemma JoinPlain(dcs: seq<string>, ncs: seq<string>)
    requires PlainPath(dcs) && |dcs| >= 1
    requires PlainPath(ncs) && |ncs| >= 1
    ensures Join(Render(Loc(true, dcs)), Clean(Glue(ncs))) == Render(Loc(true, dcs + ncs))
  {
    assert Normal(Loc(false, ncs));
    JoinNormal(dcs, ncs);
    FoldPlain(true, dcs, ncs);
  }

  lemma RenderConcat(dcs: seq<string>, ncs: seq<string>)
    requires |dcs| >= 1 && |ncs| >= 1
    ensures Render(Loc(true, dcs + ncs)) == Render(Loc(true, dcs)) + "/" + Glue(ncs)
  {
    var g, h := Glue(dcs), Glue(ncs);
    GlueConcat(dcs, ncs);
    assert Render(Loc(true, dcs + ncs)) == "/" + ((g + "/") + h);
    assert Render(Loc(true, dcs)) == "/" + g;
    AppendAssoc("/", g + "/", h);
    AppendAssoc("/", g, "/");
  }

  lemma AppendAssoc<T>(a: seq<T>, b: seq<T>, c: seq<T>)
    ensures a + (b + c) == (a + b) + c
  {
  }

  /** An entry name of plain components passes the guard and lands below the destination. */
  lemma GuardAcceptsInside(cwd: seq<string>, dcs: seq<string>, ncs: seq<string>)
    requires PlainPath(dcs) && |dcs| >= 1
    requires PlainPath(ncs) && |ncs| >= 1
    ensures HasPrefix(Join(Render(Loc(true, dcs)), Clean(Glue(ncs))), Render(Loc(true, dcs)))
    ensures Locate(cwd, Join(Render(Loc(true, dcs)), Clean(Glue(ncs)))) == dcs + ncs
  {
    JoinPlain(dcs, ncs);
    RenderConcat(dcs, ncs);
    HasPrefixSep(Render(Loc(true, dcs)), Glue(ncs));
    assert PlainPath(dcs + ncs);
    LocateRender(cwd, dcs + ncs);
  }

  /** Joining a cleaned relative name onto an absolute destination resolves the name's `..` against it. */
  lemma JoinNormal(dcs: seq<string>, ncs: seq<string>)
    requires PlainPath(dcs) && |dcs| >= 1
    requires Normal(Loc(false, ncs)) && |ncs| >= 1
    ensures Join(Render(Loc(true, dcs)), Clean(Glue(ncs))) == Render(Loc(true, Fold(true, dcs, ncs)))
  {
    var dest := Render(Loc(true, dcs));
    var name := Glue(ncs);
    assert Render(Loc(false, ncs)) == name;
    CleanRender(Loc(false, ncs));
    var x := dest + "/" + name;
    assert Split(x) == [""] + dcs + ncs by {
      SplitConcat(dest, name);
      assert Normal(Loc(true, dcs));
      RenderSplit(Loc(true, dcs));
      assert forall i :: 0 <= i < |ncs| ==> SlashFree(ncs[i]);
      GlueSplit(ncs);
    }
    assert Fold(true, [], [""] + dcs + ncs) == Fold(true, dcs, ncs) by {
      FoldAppend(true, [], [""] + dcs, ncs);
      FoldAppend(true, [], [""], dcs);
      FoldCons(true, [], "", []);
      FoldPlain(true, [], dcs);
      assert [] + dcs == dcs;
    }
    assert IsAbs(x);
  }

  lemma TraversalFold(dcs: seq<string>, ncs: seq<string>, lcs: seq<string>)
    requires dcs == ["plugins", "tool", "tool"] && ncs == ["..", "..", "etc", "passwd"]
    requires lcs == ["plugins", "etc", "passwd"]
    ensures Fold(true, dcs, ncs) == lcs
  {
    FoldCons(true, dcs, "..", ncs[1..]);
    FoldCons(true, dcs[..2], "..", ncs[2..]);
    FoldCons(true, dcs[..1], "etc", ncs[3..]);
    FoldCons(true, lcs[..2], "passwd", []);
    assert Step(true, dcs, "..") == dcs[..2];
    assert Step(true, dcs[..2], "..") == dcs[..1];
    assert Step(true, dcs[..1], "etc") == lcs[..2];
    assert Step(true, lcs[..2], "passwd") == lcs;
    assert [ncs[0]] + ncs[1..] == ncs;
    assert [ncs[1]] + ncs[2..] == ncs[1..];
    assert [ncs[2]] + ncs[3..] == ncs[2..];
    assert ["passwd"] + [] == ncs[3..];
  }

  lemma TraversalJoin(dcs: seq<string>, ncs: seq<string>, lcs: seq<string>)
    requires dcs == ["plugins", "tool", "tool"] && ncs == ["..", "..", "etc", "passwd"]
    requires lcs == ["plugins", "etc", "passwd"]
    ensures Join(Render(Loc(true, dcs)), Clean(Glue(ncs))) == Render(Loc(true, lcs))
  {
    assert Normal(Loc(false, ncs));
    JoinNormal(dcs, ncs);
    TraversalFold(dcs, ncs, lcs);
  }

  /**
   * The entry `../../etc/passwd` (the components `ncs`) inside `/plugins/tool/tool`
   * resolves to `/plugins/etc/passwd` (the components `lcs`) and is refused.
   */
  lemma GuardRejectsTraversal(cwd: seq<string>, dcs: seq<string>, ncs: seq<string>, lcs: seq<string>)
    requires dcs == ["plugins", "tool", "tool"] && ncs == ["..", "..", "etc", "passwd"]
    requires lcs == ["plugins", "etc", "passwd"]
    ensures Locate(cwd, Join(Render(Loc(true, dcs)), Clean(Glue(ncs)))) == lcs
    ensures !HasPrefix(Join(Render(Loc(true, dcs)), Clean(Glue(ncs))), Render(Loc(true, dcs)))
  {
    TraversalJoin(dcs, ncs, lcs);
    assert PlainPath(lcs);
    LocateRender(cwd, lcs);
    assert PlainPath(dcs);
    assert !SiblingPrefix(lcs, dcs) by {
      assert lcs[..2][1] != dcs[..2][1];
    }
    GuardRejects(cwd, dcs, Glue(ncs), lcs);
  }

  /** A name whose target is not in the destination or a prefix-sibling of it fails the check. */
  lemma GuardRejects(cwd: seq<string>, dcs: seq<string>, name: string, lcs: seq<string>)
    requires PlainPath(dcs) && |dcs| >= 1
    requires Locate(cwd, Join(Render(Loc(true, dcs)), Clean(name))) == lcs
    requires !SiblingPrefix(lcs, dcs)
    ensures !HasPrefix(Join(Render(Loc(true, dcs)), Clean(name)), Render(Loc(true, dcs)))
  {
    if HasPrefix(Join(Render(Loc(true, dcs)), Clean(name)), Render(Loc(true, dcs))) {
      GuardConfines(cwd, dcs, name);
    }
  }

  lemma SiblingFold(dcs: seq<string>, ncs: seq<string>, lcs: seq<string>)
    requires dcs == ["plugins", "tool"] && ncs == ["..", "toolbox", "x"] && lcs == ["plugins", "toolbox", "x"]
    ensures Fold(true, dcs, ncs) == lcs
  {
    FoldCons(true, dcs, "..", ncs[1..]);
    FoldCons(true, dcs[..1], "toolbox", ncs[2..]);
    FoldCons(true, lcs[..2], "x", []);
    assert Step(true, dcs, "..") == dcs[..1];
    assert Step(true, dcs[..1], "toolbox") == lcs[..2];
    assert Step(true, lcs[..2], "x") == lcs;
    assert [ncs[0]] + ncs[1..] == ncs;
    assert [ncs[1]] + ncs[2..] == ncs[1..];
    assert ["x"] + [] == ncs[2..];
  }

  lemma SiblingTexts(dcs: seq<string>, lcs: seq<string>)
    requires dcs == ["plugins", "tool"] && lcs == ["plugins", "toolbox", "x"]
    ensures Render(Loc(true, dcs)) == "/plugins/tool"
    ensures Render(Loc(true, lcs)) == "/plugins/toolbox/x"
  {
    GlueCons("plugins", ["tool"]);
    assert dcs == ["plugins"] + ["tool"];
    GlueCons("toolbox", ["x"]);
    GlueCons("plugins", ["toolbox", "x"]);
    assert lcs == ["plugins"] + ["toolbox", "x"];
  }

  lemma SiblingJoin(dcs: seq<string>, ncs: seq<string>, lcs: seq<string>)
    requires dcs == ["plugins", "tool"] && ncs == ["..", "toolbox", "x"] && lcs == ["plugins", "toolbox", "x"]
    ensures Join(Render(Loc(true, dcs)), Clean(Glue(ncs))) == Render(Loc(true, lcs))
  {
    assert Normal(Loc(false, ncs));
    JoinNormal(dcs, ncs);
    SiblingFold(dcs, ncs, lcs);
  }

  /** As strings, `/plugins/toolbox/x` starts with `/plugins/tool`. */
  lemma SiblingTextPrefix(dcs: seq<string>, lcs: seq<string>)
    requires dcs == ["plugins", "tool"] && lcs == ["plugins", "toolbox", "x"]
    ensures HasPrefix(Render(Loc(true, lcs)), Render(Loc(true, dcs)))
  {
    SiblingTexts(dcs, lcs);
    assert "/plugins/toolbox/x"[..13] == "/plugins/tool";
  }

  /**
   * `../toolbox/x` inside `/plugins/tool` passes the guard, although it lands in
   * `/plugins/toolbox/x` (the components `lcs`), outside the destination.
   */
  lemma GuardAcceptsSibling(cwd: seq<string>, dcs: seq<string>, ncs: seq<string>, lcs: seq<string>)
    requires dcs == ["plugins", "tool"] && ncs == ["..", "toolbox", "x"] && lcs == ["plugins", "toolbox", "x"]
    ensures HasPrefix(Join(Render(Loc(true, dcs)), Clean(Glue(ncs))), Render(Loc(true, dcs)))
    ensures Locate(cwd, Join(Render(Loc(true, dcs)), Clean(Glue(ncs)))) == lcs
    ensures !Under(Locate(cwd, Join(Render(Loc(true, dcs)), Clean(Glue(ncs)))), dcs)
  {
    SiblingJoin(dcs, ncs, lcs);
    SiblingTextPrefix(dcs, lcs);
    assert PlainPath(lcs);
    LocateRender(cwd, lcs);
    assert lcs[..2] != dcs by {
      assert lcs[1] != dcs[1];
    }
  }
}
