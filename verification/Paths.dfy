/**
  Slash-separated paths as Go's package path treats them, and the string test both validators use
  to keep injected files out of the read-only token directory.
 */
module Paths {
  import opened Text

  /* ---------- path.Clean and path.Join ---------- */

  /** Lexical processing of path elements against the elements kept so far. */
  function CleanSegments(segs: seq<string>, rooted: bool, kept: seq<string>): seq<string>
    decreases segs
  {
    if segs == [] then kept
    else
      var s, rest := segs[0], segs[1..];
      if s == "" || s == "." then CleanSegments(rest, rooted, kept)
      else if s == ".." then
        if kept != [] && kept[|kept| - 1] != ".." then CleanSegments(rest, rooted, kept[..|kept| - 1])
        else if rooted then CleanSegments(rest, rooted, kept)
        else CleanSegments(rest, rooted, kept + [s])
      else CleanSegments(rest, rooted, kept + [s])
  }

  function Clean(p: string): (r: string)
    ensures r != ""
  {
    if p == "" then "."
    else if p[0] == '/' then "/" + Join(CleanSegments(Split(p, '/'), true, []), "/")
    else
      var r := Join(CleanSegments(Split(p, '/'), false, []), "/");
      if r == "" then "." else r
  }

  function JoinPath(a: string, b: string): (r: string)
    ensures r == "" <==> a == "" && b == ""
  {
    if a == "" && b == "" then "" else if a == "" then Clean(b) else Clean(a + "/" + b)
  }

  predicate IsAbs(p: string) { p != "" && p[0] == '/' }

  /* ---------- clean absolute paths are lists of proper segments ---------- */

  predicate ProperSegment(s: string) { s != "" && s != "." && s != ".." && '/' !in s }

  predicate Proper(segs: seq<string>)
  {
    forall i :: 0 <= i < |segs| ==> ProperSegment(segs[i])
  }

  function AbsPath(segs: seq<string>): string { "/" + Join(segs, "/") }

  predicate CleanAbsolute(p: string) { IsAbs(p) && Clean(p) == p }

  lemma {:induction false} CleanSegmentsProper(segs: seq<string>, kept: seq<string>)
    requires forall i :: 0 <= i < |segs| ==> '/' !in segs[i]
    requires Proper(kept)
    ensures Proper(CleanSegments(segs, true, kept))
    decreases segs
  {
    if segs != [] {
      var s, rest := segs[0], segs[1..];
      if s == "" || s == "." {
        CleanSegmentsProper(rest, kept);
      } else if s == ".." {
        if kept != [] && kept[|kept| - 1] != ".." {
          CleanSegmentsProper(rest, kept[..|kept| - 1]);
        } else {
          CleanSegmentsProper(rest, kept);
        }
      } else {
        assert ProperSegment(s);
        CleanSegmentsProper(rest, kept + [s]);
      }
    }
  }

  lemma {:induction false} CleanSegmentsKeepsProper(segs: seq<string>, kept: seq<string>)
    requires Proper(segs)
    ensures CleanSegments(segs, true, kept) == kept + segs
    decreases segs
  {
    if segs == [] {
      assert kept + segs == kept;
    } else {
      assert ProperSegment(segs[0]);
      CleanSegmentsKeepsProper(segs[1..], kept + [segs[0]]);
      assert kept + [segs[0]] + segs[1..] == kept + segs;
    }
  }

  lemma SplitAbsPath(segs: seq<string>)
    requires Proper(segs)
    ensures Split(AbsPath(segs), '/') == if segs == [] then ["", ""] else [""] + segs
  {
    var j := Join(segs, "/");
    assert AbsPath(segs) == "" + ['/'] + j;
    SplitAtSep("", '/', j);
    if segs != [] {
      assert forall i :: 0 <= i < |segs| ==> ProperSegment(segs[i]);
      SplitJoin(segs, '/');
    }
  }

  /** Exactly the paths built from proper segments are clean and absolute. */
  lemma AbsPathClean(segs: seq<string>)
    requires Proper(segs)
    ensures CleanAbsolute(AbsPath(segs))
  {
    SplitAbsPath(segs);
    hide CleanSegments, Join;
    var parts := Split(AbsPath(segs), '/');
    if segs == [] {
      CleanEmpties();
    } else {
      CleanLeadingEmpty(segs);
    }
  }

  lemma CleanEmpties()
    ensures CleanSegments(["", ""], true, []) == []
  {
    assert ["", ""][1..] == [""] && [""][1..] == [];
    assert CleanSegments([""], true, []) == [];
  }

  lemma {:induction false} CleanLeadingEmpty(segs: seq<string>)
    requires Proper(segs)
    ensures CleanSegments([""] + segs, true, []) == segs
  {
    assert ([""] + segs)[1..] == segs;
    CleanSegmentsKeepsProper(segs, []);
    assert [] + segs == segs;
  }

  /* ---------- where a path leads ---------- */

  /** The directory or file a path denotes in a container, where every path starts at the root. */
  function Location(p: string): (segs: seq<string>) { CleanSegments(Split(p, '/'), true, []) }

  lemma CleanIsAbsPath(p: string)
    requires CleanAbsolute(p)
    ensures Proper(Location(p)) && p == AbsPath(Location(p))
  {
    SplitPartsClean(p, '/');
    CleanSegmentsProper(Split(p, '/'), []);
  }

  lemma LocationOfAbsPath(segs: seq<string>)
    requires Proper(segs)
    ensures Location(AbsPath(segs)) == segs
  {
    SplitAbsPath(segs);
    if segs == [] {
      CleanEmpties();
    } else {
      CleanLeadingEmpty(segs);
    }
  }

  /* ---------- the containment test ---------- */

  /** f.Path == mountPath || strings.HasPrefix(f.Path, mountPath + "/"). */
  predicate AtOrUnder(mountPath: string, path: string)
  {
    path == mountPath || (mountPath + "/") <= path
  }

  lemma {:induction false} JoinConcat(a: seq<string>, b: seq<string>, sep: string)
    requires a != [] && b != []
    ensures Join(a + b, sep) == Join(a, sep) + sep + Join(b, sep)
  {
    if |a| == 1 {
      assert (a + b)[1..] == b;
    } else {
      JoinConcat(a[1..], b, sep);
      assert (a + b)[1..] == a[1..] + b;
      var x, y, z := a[0] + sep, Join(a[1..], sep), sep + Join(b, sep);
      assert Join(a + b, sep) == x + (y + z) by {
        assert Join(a[1..] + b, sep) == y + z;
      }
      Associative(x, y, z);
      assert Join(a, sep) + sep + Join(b, sep) == (x + y) + z;
    }
  }

  /** The parts an absolute path splits into: an empty one before the leading slash. */
  function RootedParts(segs: seq<string>): seq<string> { if segs == [] then ["", ""] else [""] + segs }

  lemma RootedPartsShape(segs: seq<string>)
    requires Proper(segs)
    ensures |RootedParts(segs)| >= 2
    ensures RootedParts(segs)[1] == "" <==> segs == []
    ensures segs != [] ==> RootedParts(segs)[1..] == segs
  {
    if segs != [] {
      assert RootedParts(segs)[1] == segs[0] && ProperSegment(segs[0]);
    }
  }

  lemma RootedPartsInjective(a: seq<string>, b: seq<string>)
    requires Proper(a) && Proper(b) && RootedParts(a) == RootedParts(b)
    ensures a == b
  {
    hide Proper, RootedParts;
    RootedPartsShape(a);
    RootedPartsShape(b);
  }

  /** A rooted list that continues another one comes from a proper extension of its segments. */
  lemma SegmentsFollow(mount: seq<string>, file: seq<string>, more: seq<string>)
    requires Proper(mount) && Proper(file) && more != []
    requires RootedParts(file) == RootedParts(mount) + more
    ensures mount != [] && mount < file
  {
    RootedPartsShape(mount);
    RootedPartsShape(file);
    assert |RootedParts(file)| >= 3;
    hide Proper;
    assert RootedParts(file)[1] == RootedParts(mount)[1];
    assert (RootedParts(mount) + more)[1..] == RootedParts(mount)[1..] + more;
  }

  lemma DescendantIsUnder(mount: seq<string>, rest: seq<string>)
    requires mount != [] && rest != []
    ensures (AbsPath(mount) + "/") <= AbsPath(mount + rest)
  {
    JoinConcat(mount, rest, "/");
    hide Join;
    assert AbsPath(mount + rest) == (AbsPath(mount) + "/") + Join(rest, "/");
  }

  lemma UnderIsDescendant(mount: seq<string>, file: seq<string>)
    requires Proper(mount) && Proper(file) && (AbsPath(mount) + "/") <= AbsPath(file)
    ensures mount != [] && mount < file
  {
    hide AbsPath, Split, Proper;
    SplitAbsPath(mount);
    SplitAbsPath(file);
    var m, f := AbsPath(mount), AbsPath(file);
    var rest := f[|m| + 1..];
    assert f == m + ['/'] + rest;
    SplitConcat(m, '/', rest);
    SegmentsFollow(mount, file, Split(rest, '/'));
  }

  lemma AbsPathInjective(a: seq<string>, b: seq<string>)
    requires Proper(a) && Proper(b) && AbsPath(a) == AbsPath(b)
    ensures a == b
  {
    hide AbsPath, Split, Proper;
    SplitAbsPath(a);
    SplitAbsPath(b);
    RootedPartsInjective(a, b);
  }

  lemma AtOrUnderSegments(mount: seq<string>, file: seq<string>)
    requires Proper(mount) && Proper(file)
    ensures AtOrUnder(AbsPath(mount), AbsPath(file)) <==> (mount <= file && (mount == [] ==> file == []))
  {
    hide AbsPath, Proper;
    if mount <= file && mount != [] && mount != file {
      DescendantIsUnder(mount, file[|mount|..]);
      assert file == mount + file[|mount|..];
    }
    if AbsPath(file) == AbsPath(mount) {
      AbsPathInjective(mount, file);
    }
    if (AbsPath(mount) + "/") <= AbsPath(file) {
      UnderIsDescendant(mount, file);
    }
  }

  /**
    For clean absolute paths the string test is the ancestor-or-equal relation on locations, with
    one exception: under the root directory it recognises nothing but the root itself.
   */
  lemma AtOrUnderIsAncestor(mountPath: string, path: string)
    requires CleanAbsolute(mountPath) && CleanAbsolute(path)
    ensures AtOrUnder(mountPath, path)
            <==> Location(mountPath) <= Location(path) && (mountPath == "/" ==> path == "/")
  {
    CleanIsAbsPath(mountPath);
    CleanIsAbsPath(path);
    hide Location, AtOrUnder, CleanAbsolute, Proper;
    AtOrUnderSegments(Location(mountPath), Location(path));
    RootIsEmpty(Location(mountPath));
    RootIsEmpty(Location(path));
  }

  lemma RootIsEmpty(segs: seq<string>)
    requires Proper(segs)
    ensures AbsPath(segs) == "/" <==> segs == []
  {
    if segs != [] {
      assert ProperSegment(segs[0]);
      assert |Join(segs, "/")| >= |segs[0]|;
      assert |AbsPath(segs)| > 1;
    }
  }

  /** So a sibling that merely shares a string prefix is never mistaken for a descendant. */
  lemma SiblingAccepted(dir: seq<string>, name: string, suffix: string, file: string)
    requires Proper(dir) && ProperSegment(name) && suffix != "" && ProperSegment(name + suffix) && ProperSegment(file)
    ensures !AtOrUnder(AbsPath(dir + [name]), AbsPath(dir + [name + suffix, file]))
    ensures AtOrUnder(AbsPath(dir + [name]), AbsPath(dir + [name, file]))
  {
    var m, sibling, child := dir + [name], dir + [name + suffix, file], dir + [name, file];
    AtOrUnderSegments(m, sibling);
    AtOrUnderSegments(m, child);
    assert m[|dir|] == name && sibling[|dir|] == name + suffix && |name + suffix| > |name|;
    assert child[..|m|] == m;
  }

  lemma TrailingSlash()
    ensures Location("/a/") == ["a"]
  {
    assert "/a/" == "" + ['/'] + ("a" + ['/'] + "");
    SplitAtSep("", '/', "a" + ['/'] + "");
    SplitAtSep("a", '/', "");
    assert Split("/a/", '/') == ["", "a", ""];
    assert ["", "a", ""][1..] == ["a", ""] && ["a", ""][1..] == [""] && [""][1..] == [];
    assert CleanSegments([""], true, ["a"]) == ["a"];
    assert [] + ["a"] == ["a"];
    assert CleanSegments(["a", ""], true, []) == ["a"];
  }

  /** A mount path that is not clean, or is the root, lets files below it through. */
  lemma UncleanMountMissesFiles()
    ensures !AtOrUnder("/", "/x") && !AtOrUnder("/a/", "/a/x") && Clean("/a/") == "/a" && AtOrUnder("/a", "/a/x")
  {
    assert "/" + "/" == "//" && "/a/" + "/" == "/a//" && "/a" + "/" == "/a/";
    assert "/x"[1] != '/' && "/a/x"[3] != '/';
    assert "/a/x"[..3] == "/a/";
    TrailingSlash();
    hide CleanSegments, Split;
  }

  /* ---------- where a joined path leads ---------- */

  lemma {:induction false} CleanSegmentsAppend(a: seq<string>, b: seq<string>, rooted: bool, kept: seq<string>)
    ensures CleanSegments(a + b, rooted, kept) == CleanSegments(b, rooted, CleanSegments(a, rooted, kept))
    decreases a
  {
    if a == [] {
      assert a + b == b;
    } else {
      var s, rest, all := a[0], a[1..], a + b;
      assert all[0] == s && all[1..] == rest + b;
      if s == "" || s == "." {
        CleanSegmentsAppend(rest, b, rooted, kept);
      } else if s == ".." {
        if kept != [] && kept[|kept| - 1] != ".." {
          CleanSegmentsAppend(rest, b, rooted, kept[..|kept| - 1]);
        } else if rooted {
          CleanSegmentsAppend(rest, b, rooted, kept);
        } else {
          CleanSegmentsAppend(rest, b, rooted, kept + [s]);
        }
      } else {
        CleanSegmentsAppend(rest, b, rooted, kept + [s]);
      }
    }
  }

  lemma LocationOfClean(p: string)
    requires IsAbs(p)
    ensures Location(Clean(p)) == Location(p)
  {
    SplitPartsClean(p, '/');
    CleanSegmentsProper(Split(p, '/'), []);
    hide CleanSegments, Split;
    assert Clean(p) == AbsPath(Location(p));
    LocationOfAbsPath(Location(p));
  }

  /** Joining continues from where the directory leads, so ".." elements may leave it again. */
  lemma {:induction false} JoinedLocation(dir: string, name: string)
    requires IsAbs(dir)
    ensures Location(JoinPath(dir, name)) == CleanSegments(Split(name, '/'), true, Location(dir))
  {
    LocationOfClean(dir + "/" + name);
    SplitConcat(dir, '/', name);
    CleanSegmentsAppend(Split(dir, '/'), Split(name, '/'), true, []);
    hide CleanSegments, Split, Clean;
  }

  /** A plain file name leads to that file in the directory. */
  lemma JoinedBelow(dir: string, name: string)
    requires IsAbs(dir) && ProperSegment(name)
    ensures Location(JoinPath(dir, name)) == Location(dir) + [name]
  {
    JoinedLocation(dir, name);
    SplitNoSep(name, '/');
    assert [name][1..] == [];
    hide Split, JoinPath, Location;
  }

  /** A name that starts with ".." leads out of the directory. */
  lemma JoinedOutside(dir: string, name: string)
    requires IsAbs(dir) && Location(dir) != [] && Location(dir)[|Location(dir)| - 1] != ".." && ProperSegment(name)
    ensures Location(JoinPath(dir, "../" + name)) == Location(dir)[..|Location(dir)| - 1] + [name]
  {
    JoinedLocation(dir, "../" + name);
    assert "../" + name == ".." + ['/'] + name;
    SplitAtSep("..", '/', name);
    SplitNoSep(name, '/');
    hide Split, JoinPath, Location;
    UpAndDown(Location(dir), name);
  }

  lemma {:induction false} UpAndDown(kept: seq<string>, name: string)
    requires kept != [] && kept[|kept| - 1] != ".." && ProperSegment(name)
    ensures CleanSegments(["..", name], true, kept) == kept[..|kept| - 1] + [name]
  {
    var up := kept[..|kept| - 1];
    assert ["..", name][1..] == [name] && [name][1..] == [];
    assert CleanSegments([name], true, up) == up + [name];
  }

  const TOKEN_ROOT_SEGMENTS := ["var", "run", "secrets", "oidcshim"]
  const TOKEN_ROOT := AbsPath(TOKEN_ROOT_SEGMENTS)

  lemma TokenRootProper()
    ensures Proper(TOKEN_ROOT_SEGMENTS)
  {
    assert ProperSegment("var") && ProperSegment("run") && ProperSegment("secrets") && ProperSegment("oidcshim");
  }

  lemma TokenRootText()
    ensures TOKEN_ROOT == "/var/run/secrets/oidcshim"
  {
    hide Join;
    TwoSegments("var", "run");
    TwoSegments("secrets", "oidcshim");
    JoinConcat(["var", "run"], ["secrets", "oidcshim"], "/");
    assert TOKEN_ROOT_SEGMENTS == ["var", "run"] + ["secrets", "oidcshim"];
  }

  lemma TwoSegments(a: string, b: string)
    ensures Join([a, b], "/") == a + "/" + b
  {
    assert [a, b][1..] == [b];
    assert Join([b], "/") == b;
  }

  /** Joining one more proper segment to a clean absolute path appends it. */
  lemma JoinSegment(base: seq<string>, name: string)
    requires base != [] && Proper(base) && ProperSegment(name)
    ensures JoinPath(AbsPath(base), name) == AbsPath(base + [name]) == AbsPath(base) + "/" + name
  {
    var segs := base + [name];
    assert Proper(segs) by {
      forall i | 0 <= i < |segs| ensures ProperSegment(segs[i]) {
        assert i < |base| ==> segs[i] == base[i];
      }
    }
    AbsPathClean(segs);
    JoinConcat(base, [name], "/");
    assert Join([name], "/") == name;
    hide Join, Clean, Proper;
    assert AbsPath(segs) == AbsPath(base) + "/" + name;
  }

  /** The default token directory is clean for every usable shim name, so the test is exact there. */
  lemma DefaultMountClean(shimName: string)
    requires ProperSegment(shimName)
    ensures JoinPath(TOKEN_ROOT, shimName) == AbsPath(TOKEN_ROOT_SEGMENTS + [shimName])
    ensures Proper(TOKEN_ROOT_SEGMENTS + [shimName])
  {
    TokenRootProper();
    var base, segs := TOKEN_ROOT_SEGMENTS, TOKEN_ROOT_SEGMENTS + [shimName];
    assert base != [];
    forall i | 0 <= i < |segs| ensures ProperSegment(segs[i]) {
      assert i < |base| ==> segs[i] == base[i];
    }
    hide AbsPath, JoinPath;
    JoinSegment(base, shimName);
  }
}
