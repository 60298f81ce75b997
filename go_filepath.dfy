/**
  Go's `path/filepath` on a system whose separator is '/': Clean, Join, Rel,
  Base and IsAbs.  The functions are purely lexical, as Go's are.

  Clean is stated over the '/'-separated elements of a path: empty and "."
  elements are dropped, ".." removes the element before it when there is one
  that is not itself "..", is dropped at the root of a rooted path, and is
  kept at the front of a relative one.  This is the same reduction Go's Clean
  performs while scanning the string.
 */
module GoFilepath {
  import opened Wrappers
  import opened GoText

  // ---------------------------------------------------------------------
  // Elements of a path

  /** strings.Split(s, "/"): the pieces between separators; never empty. */
  function Split(s: string): (r: seq<string>)
    ensures |r| >= 1
    decreases |s|
  {
    if s == [] then [""]
    else if s[0] == '/' then [""] + Split(s[1..])
    else
      var t := Split(s[1..]);
      [[s[0]] + t[0]] + t[1..]
  }

  /** strings.Join(elems, "/"). */
  function JoinSegs(elems: seq<string>): string
    decreases |elems|
  {
    if elems == [] then ""
    else if |elems| == 1 then elems[0]
    else elems[0] + "/" + JoinSegs(elems[1..])
  }

  predicate NoSlashes(elems: seq<string>) {
    forall i :: 0 <= i < |elems| ==> '/' !in elems[i]
  }

  /** An element that names a child: not empty, not ".", not "..", no '/'. */
  predicate IsName(e: string) {
    e != "" && e != "." && e != ".." && '/' !in e
  }

  predicate AllNames(elems: seq<string>) {
    forall i :: 0 <= i < |elems| ==> IsName(elems[i])
  }

  /** The shape of Clean's element stack: no empty, "." or '/'-holding
      element, and ".." only as a leading run, never in a rooted path. */
  predicate CleanStack(st: seq<string>, rooted: bool) {
    forall i :: 0 <= i < |st| ==>
      && st[i] != "" && st[i] != "." && '/' !in st[i]
      && (st[i] == ".." ==> !rooted && forall j :: 0 <= j < i ==> st[j] == "..")
  }

  // ---------------------------------------------------------------------
  // Clean

  function Rooted(p: string): bool {
    p != "" && p[0] == '/'
  }

  /** One element of Clean's left-to-right reduction. */
  function Step(st: seq<string>, e: string, rooted: bool): seq<string> {
    if e == "" || e == "." then st
    else if e == ".." then
      if |st| > 0 && st[|st| - 1] != ".." then st[..|st| - 1]
      else if rooted then st
      else st + [".."]
    else st + [e]
  }

  function Reduce(st: seq<string>, elems: seq<string>, rooted: bool): seq<string>
    decreases |elems|
  {
    if elems == [] then st else Reduce(Step(st, elems[0], rooted), elems[1..], rooted)
  }

  /** The elements that remain of p once it is cleaned. */
  function Elements(p: string): seq<string> {
    Reduce([], Split(p), Rooted(p))
  }

  /** How Clean writes an element stack back as a path. */
  function Render(rooted: bool, st: seq<string>): string {
    if rooted then "/" + JoinSegs(st)
    else if st == [] then "."
    else JoinSegs(st)
  }

  /** filepath.Clean. */
  function Clean(p: string): string {
    Render(Rooted(p), Elements(p))
  }

  /** filepath.IsAbs. */
  predicate IsAbs(p: string) {
    HasPrefix(p, "/")
  }

  /** filepath.Join for two elements: the first non-empty element onwards,
      joined by '/' and cleaned; "" when both are empty. */
  function Join(a: string, b: string): string {
    if a != "" then Clean(a + "/" + b)
    else if b != "" then Clean(b)
    else ""
  }

  // ---------------------------------------------------------------------
  // Rel

  /** The elements of a cleaned path as Rel walks them; the root contributes
      none. */
  function Segments(s: string): seq<string> {
    if s == "" then []
    else if s[0] == '/' then (if s == "/" then [] else Split(s[1..]))
    else Split(s)
  }

  /** Length of the longest common prefix of two element lists. */
  function CommonPrefix(a: seq<string>, b: seq<string>): (k: nat)
    ensures k <= |a| && k <= |b|
    ensures a[..k] == b[..k]
    ensures k < |a| && k < |b| ==> a[k] != b[k]
    decreases |a|
  {
    if a == [] || b == [] || a[0] != b[0] then 0
    else 1 + CommonPrefix(a[1..], b[1..])
  }

  function Repeat(e: string, n: nat): seq<string>
    decreases n
  {
    if n == 0 then [] else [e] + Repeat(e, n - 1)
  }

  /** filepath.Rel: a relative path that, joined to basepath, names targpath;
      None when Go returns an error (one path rooted and the other not, or
      basepath has a ".." that cannot be undone). */
  function Rel(basepath: string, targpath: string): Option<string> {
    var base := Clean(basepath);
    var targ := Clean(targpath);
    if targ == base then Some(".")
    else
      var b := if base == "." then "" else base;
      if Rooted(b) != Rooted(targ) then None
      else RelElements(Segments(b), Segments(targ))
  }

  /** The element walk of Rel: skip the common leading elements, climb out of
      the rest of the base with "..", then descend into the rest of the target. */
  function RelElements(bs: seq<string>, ts: seq<string>): Option<string> {
    var k := CommonPrefix(bs, ts);
    if k < |bs| && bs[k] == ".." then None
    else if k < |bs| then Some(JoinSegs(Repeat("..", |bs| - k) + ts[k..]))
    else Some(JoinSegs(ts[k..]))
  }

  // ---------------------------------------------------------------------
  // Base

  function StripTrailingSlashes(s: string): string
    decreases |s|
  {
    if s != [] && s[|s| - 1] == '/' then StripTrailingSlashes(s[..|s| - 1]) else s
  }

  /** filepath.Base: the last element, "." for "" and "/" for a path made of
      separators only. */
  function Base(p: string): string {
    if p == "" then "."
    else
      var q := StripTrailingSlashes(p);
      if q == "" then "/"
      else
        var parts := Split(q);
        var last := parts[|parts| - 1];
        if last == "" then "/" else last
  }

  // ---------------------------------------------------------------------
  // Lemmas about elements

  lemma SplitNoSlashes(s: string)
    ensures NoSlashes(Split(s))
    decreases |s|
  {
    if s != [] { SplitNoSlashes(s[1..]); }
  }

  lemma SplitName(x: string)
    requires '/' !in x
    ensures Split(x) == [x]
    decreases |x|
  {
    if x != [] {
      assert '/' !in x[1..] by {
        forall i | 0 <= i < |x[1..]| ensures x[1..][i] != '/' { assert x[1..][i] == x[i + 1]; }
      }
      SplitName(x[1..]);
      assert [x[0]] + x[1..] == x;
    }
  }

  /** Splitting at a separator splits each side. */
  lemma {:induction false} SplitAtSlash(a: string, b: string)
    ensures Split(a + "/" + b) == Split(a) + Split(b)
    decreases |a|
  {
    if a == [] {
      assert a + "/" + b == ['/'] + b;
      SplitCons('/', b);
    } else {
      var rest := a[1..] + "/" + b;
      assert a + "/" + b == [a[0]] + rest;
      assert a == [a[0]] + a[1..];
      SplitAtSlash(a[1..], b);
      SplitConsAppend(a[0], Split(a[1..]), Split(b), Split([a[0]] + rest), Split([a[0]] + a[1..]));
    }
  }

  lemma SplitConsAppend(c: char, u: seq<string>, v: seq<string>, whole: seq<string>, left: seq<string>)
    requires u != []
    requires whole == if c == '/' then [""] + (u + v) else [[c] + (u + v)[0]] + (u + v)[1..]
    requires left == if c == '/' then [""] + u else [[c] + u[0]] + u[1..]
    ensures whole == left + v
  {
    if c == '/' {
      assert [""] + (u + v) == ([""] + u) + v;
    } else {
      assert (u + v)[0] == u[0];
      assert (u + v)[1..] == u[1..] + v;
      assert [[c] + u[0]] + (u[1..] + v) == ([[c] + u[0]] + u[1..]) + v;
    }
  }

  /** Split of a string that starts with a given rune. */
  lemma SplitCons(c: char, x: string)
    ensures Split([c] + x) ==
      if c == '/' then [""] + Split(x) else [[c] + Split(x)[0]] + Split(x)[1..]
  {
    var s := [c] + x;
    assert s[0] == c && s[1..] == x;
  }

  /** Split undoes JoinSegs. */
  lemma {:induction false} SplitJoin(elems: seq<string>)
    requires elems != [] && NoSlashes(elems)
    ensures Split(JoinSegs(elems)) == elems
    decreases |elems|
  {
    if |elems| == 1 {
      SplitName(elems[0]);
    } else {
      SplitName(elems[0]);
      SplitJoin(elems[1..]);
      SplitAtSlash(elems[0], JoinSegs(elems[1..]));
      assert elems == [elems[0]] + elems[1..];
    }
  }

  lemma JoinSegsFirst(elems: seq<string>)
    requires elems != [] && elems[0] != ""
    ensures JoinSegs(elems) != "" && JoinSegs(elems)[0] == elems[0][0]
  {
  }

  lemma JoinSegsLast(elems: seq<string>)
    requires elems != [] && elems[|elems| - 1] != ""
    ensures JoinSegs(elems) != ""
    ensures JoinSegs(elems)[|JoinSegs(elems)| - 1] == elems[|elems| - 1][|elems[|elems| - 1]| - 1]
    decreases |elems|
  {
    if |elems| > 1 { JoinSegsLast(elems[1..]); }
  }

  // ---------------------------------------------------------------------
  // Lemmas about Reduce and Clean

  lemma ReduceAppend(st: seq<string>, a: seq<string>, b: seq<string>, rooted: bool)
    ensures Reduce(st, a + b, rooted) == Reduce(Reduce(st, a, rooted), b, rooted)
    decreases |a|
  {
    if a == [] {
      assert a + b == b;
    } else {
      assert (a + b)[0] == a[0];
      assert (a + b)[1..] == a[1..] + b;
      ReduceAppend(Step(st, a[0], rooted), a[1..], b, rooted);
    }
  }

  /** Names are pushed as they are. */
  lemma ReduceNames(st: seq<string>, elems: seq<string>, rooted: bool)
    requires AllNames(elems)
    ensures Reduce(st, elems, rooted) == st + elems
    decreases |elems|
  {
    if elems != [] {
      ReduceNames(st + [elems[0]], elems[1..], rooted);
      assert st + [elems[0]] + elems[1..] == st + elems;
    }
  }

  /** Reducing a clean stack onto its own prefix rebuilds it. */
  lemma ReduceCleanStack(pre: seq<string>, st: seq<string>, rooted: bool)
    requires CleanStack(pre + st, rooted)
    ensures Reduce(pre, st, rooted) == pre + st
    decreases |st|
  {
    if st != [] {
      var all := pre + st;
      assert all[|pre|] == st[0];
      if st[0] == ".." {
        assert forall j :: 0 <= j < |pre| ==> pre[j] == all[j] == "..";
      }
      assert Step(pre, st[0], rooted) == pre + [st[0]];
      assert pre + [st[0]] + st[1..] == all;
      ReduceCleanStack(pre + [st[0]], st[1..], rooted);
    }
  }

  lemma StepClean(st: seq<string>, e: string, rooted: bool)
    requires CleanStack(st, rooted) && '/' !in e
    ensures CleanStack(Step(st, e, rooted), rooted)
  {
    var r := Step(st, e, rooted);
    if e == ".." && !(|st| > 0 && st[|st| - 1] != "..") && !rooted {
      forall i | 0 <= i < |r|
        ensures r[i] == ".." ==> forall j :: 0 <= j < i ==> r[j] == ".."
      {
        if i < |st| {
          assert r[i] == st[i];
        } else {
          assert i == |st|;
          if |st| > 0 { assert st[|st| - 1] == ".."; }
          forall j | 0 <= j < i ensures r[j] == ".." {
            assert r[j] == st[j];
          }
        }
      }
    }
  }

  lemma ReduceClean(st: seq<string>, elems: seq<string>, rooted: bool)
    requires CleanStack(st, rooted) && NoSlashes(elems)
    ensures CleanStack(Reduce(st, elems, rooted), rooted)
    decreases |elems|
  {
    if elems != [] {
      StepClean(st, elems[0], rooted);
      ReduceClean(Step(st, elems[0], rooted), elems[1..], rooted);
    }
  }

  /** Clean leaves a clean element stack. */
  lemma {:induction false} ElementsClean(p: string)
    ensures CleanStack(Elements(p), Rooted(p))
  {
    SplitNoSlashes(p);
    ReduceClean([], Split(p), Rooted(p));
  }

  lemma SplitDot()
    ensures Split(".") == ["."]
  {
    var dot := ".";
    assert dot != [] && dot[0] != '/' && dot[1..] == [];
    assert Split(dot[1..]) == [""];
    assert [dot[0]] + "" == dot;
  }

  lemma RenderRooted(rooted: bool, st: seq<string>)
    requires CleanStack(st, rooted)
    ensures Render(rooted, st) != ""
    ensures Rooted(Render(rooted, st)) == rooted
  {
    if !rooted && st != [] {
      JoinSegsFirst(st);
    }
  }

  /** Split of a rendered stack, as the elements Clean starts from. */
  lemma SplitRender(rooted: bool, st: seq<string>)
    requires CleanStack(st, rooted)
    ensures Reduce([], Split(Render(rooted, st)), rooted) == st
  {
    assert NoSlashes(st);
    var r := Render(rooted, st);
    if rooted {
      assert r[1..] == JoinSegs(st);
      if st == [] {
        assert Split(r) == ["", ""];
      } else {
        SplitJoin(st);
        assert Split(r) == [""] + st;
        assert Reduce([], [""] + st, rooted) == Reduce([], st, rooted);
        ReduceCleanStack([], st, rooted);
      }
    } else if st == [] {
      SplitDot();
    } else {
      SplitJoin(st);
      ReduceCleanStack([], st, rooted);
    }
  }

  /** A rendered clean stack is already clean. */
  lemma {:induction false} CleanRender(rooted: bool, st: seq<string>)
    requires CleanStack(st, rooted)
    ensures Clean(Render(rooted, st)) == Render(rooted, st)
    ensures Elements(Render(rooted, st)) == st
  {
    RenderRooted(rooted, st);
    SplitRender(rooted, st);
  }

  /** filepath.Clean is idempotent. */
  lemma {:induction false} CleanIdempotent(p: string)
    ensures Clean(Clean(p)) == Clean(p)
  {
    ElementsClean(p);
    CleanRender(Rooted(p), Elements(p));
  }

  /** Joining names onto a directory extends its cleaned elements by them. */
  lemma {:induction false} JoinNames(dir: string, names: seq<string>)
    requires names != [] && AllNames(names)
    ensures Join(dir, JoinSegs(names)) == Render(Rooted(dir), Elements(dir) + names)
  {
    assert NoSlashes(names);
    SplitJoin(names);
    var off := JoinSegs(names);
    if dir != "" {
      var p := dir + "/" + off;
      assert p[0] == dir[0];
      SplitAtSlash(dir, off);
      ReduceAppend([], Split(dir), names, Rooted(dir));
      ReduceNames(Elements(dir), names, Rooted(dir));
    } else {
      JoinSegsFirst(names);
      ReduceNames([], names, false);
      assert Elements(dir) == [] by { assert Split(dir) == [""]; }
    }
  }

  // ---------------------------------------------------------------------
  // Lemmas about Rel and Base

  lemma SegmentsRender(rooted: bool, st: seq<string>)
    requires CleanStack(st, rooted) && (rooted || st != [])
    ensures Segments(Render(rooted, st)) == st
  {
    assert NoSlashes(st);
    var r := Render(rooted, st);
    if rooted {
      if st != [] {
        JoinSegsFirst(st);
        assert r[1..] == JoinSegs(st);
        SplitJoin(st);
      }
    } else {
      JoinSegsFirst(st);
      SplitJoin(st);
    }
  }

  lemma CommonPrefixExtends(a: seq<string>, b: seq<string>)
    ensures CommonPrefix(a, a + b) == |a|
    decreases |a|
  {
    if a != [] {
      assert (a + b)[0] == a[0];
      assert (a + b)[1..] == a[1..] + b;
      CommonPrefixExtends(a[1..], b);
    }
  }

  /** Names appended to a cleaned path keep it clean. */
  lemma CleanStackNames(st: seq<string>, names: seq<string>, rooted: bool)
    requires CleanStack(st, rooted) && AllNames(names)
    ensures CleanStack(st + names, rooted)
  {
    var all := st + names;
    forall i | 0 <= i < |all| ensures all[i] != "" && all[i] != "." && '/' !in all[i]
      && (all[i] == ".." ==> !rooted && forall j :: 0 <= j < i ==> all[j] == "..")
    {
      if i >= |st| { assert all[i] == names[i - |st|]; } else { assert all[i] == st[i]; }
    }
  }

  /** Joining "." onto a path is cleaning it. */
  lemma {:induction false} JoinDot(dir: string)
    requires dir != ""
    ensures Join(dir, ".") == Clean(dir)
  {
    var p := dir + "/" + ".";
    assert p[0] == dir[0];
    SplitAtSlash(dir, ".");
    SplitDot();
    ReduceAppend([], Split(dir), ["."], Rooted(dir));
  }

  /** Joining "" onto a path is cleaning it. */
  lemma {:induction false} JoinEmpty(dir: string)
    requires dir != ""
    ensures Join(dir, "") == Clean(dir)
  {
    var p := dir + "/" + "";
    assert p[0] == dir[0];
    SplitAtSlash(dir, "");
    assert Split("") == [""];
    ReduceAppend([], Split(dir), [""], Rooted(dir));
  }

  /** A trailing separator on the joined element is cleaned away. */
  lemma {:induction false} JoinTrailingSlash(dir: string, b: string)
    requires dir != ""
    ensures Join(dir, b + "/") == Join(dir, b)
  {
    var p := dir + "/" + b;
    var q := p + "/" + "";
    assert dir + "/" + (b + "/") == q;
    assert p[0] == dir[0] && q[0] == p[0];
    SplitAtSlash(p, "");
    assert Split("") == [""];
    ReduceAppend([], Split(p), [""], Rooted(p));
  }

  /** Rel from a directory to a path below it is the names in between. */
  lemma {:induction false} RelBelow(rooted: bool, dir: seq<string>, names: seq<string>)
    requires CleanStack(dir, rooted) && names != [] && AllNames(names)
    ensures Rel(Render(rooted, dir), Render(rooted, dir + names)) == Some(JoinSegs(names))
  {
    var all := dir + names;
    CleanStackNames(dir, names, rooted);
    var base := Render(rooted, dir);
    var targ := Render(rooted, all);
    CleanRender(rooted, dir);
    CleanRender(rooted, all);
    SegmentsRender(rooted, all);
    RenderRooted(rooted, all);
    SplitDot();
    assert Segments(".") == ["."];
    assert all != ["."] by { assert all[0] != "."; }
    if rooted || dir != [] {
      SegmentsRender(rooted, dir);
      RenderRooted(rooted, dir);
      assert Segments(targ) != Segments(base) by { assert |all| != |dir|; }
      assert dir != ["."] by { if dir != [] { assert dir[0] != "."; } }
      assert Segments(base) != Segments(".");
    } else {
      assert base == ".";
      assert Segments(targ) != Segments(base);
    }
    CommonPrefixExtends(dir, names);
    assert all[|dir|..] == names;
  }

  lemma JoinSegsPrefix(elems: seq<string>)
    requires elems != []
    ensures HasPrefix(JoinSegs(elems), elems[0])
  {
    if |elems| > 1 {
      assert JoinSegs(elems)[..|elems[0]|] == elems[0];
    }
  }

  /** The elements of a cleaned path, as Rel sees them, are its clean stack
      unless the path is ".". */
  lemma {:induction false} SegmentsClean(p: string)
    requires Clean(p) != "."
    ensures Segments(Clean(p)) == Elements(p) && CleanStack(Elements(p), Rooted(p))
    ensures Rooted(Clean(p)) == Rooted(p)
  {
    ElementsClean(p);
    RenderRooted(Rooted(p), Elements(p));
    SegmentsRender(Rooted(p), Elements(p));
  }

  lemma ClimbStartsWithDotDot(n: nat, rest: seq<string>)
    requires n >= 1
    ensures HasPrefix(JoinSegs(Repeat("..", n) + rest), "..")
  {
    var up := Repeat("..", n) + rest;
    assert up[0] == "..";
    JoinSegsPrefix(up);
  }

  /** After its leading ".." run, a clean stack holds only names. */
  lemma CleanTailNames(ts: seq<string>, rooted: bool, k: nat)
    requires CleanStack(ts, rooted) && k <= |ts| && (k < |ts| ==> ts[k] != "..")
    ensures AllNames(ts[k..])
  {
    forall i | 0 <= i < |ts[k..]| ensures IsName(ts[k..][i]) {
      assert ts[k..][i] == ts[k + i];
      assert 0 <= k < k + i + 1 <= |ts|;
    }
  }

  /** The walk of Rel, when it does not climb, yields plain names. */
  lemma {:induction false} RelElementsNames(bs: seq<string>, ts: seq<string>, rooted: bool, rel: string)
      returns (names: seq<string>)
    requires CleanStack(ts, rooted)
    requires RelElements(bs, ts) == Some(rel) && !HasPrefix(rel, "..")
    ensures AllNames(names) && rel == JoinSegs(names)
  {
    RelClimbs(bs, ts);
    var k := CommonPrefix(bs, ts);
    assert k == |bs|;
    names := ts[k..];
    if names != [] {
      JoinSegsPrefix(names);
    }
    CleanTailNames(ts, rooted, k);
  }

  /** When the base has elements left after the common prefix, Rel's answer
      climbs: it starts with "..". */
  lemma RelClimbs(bs: seq<string>, ts: seq<string>)
    ensures CommonPrefix(bs, ts) < |bs| && RelElements(bs, ts).Some? ==> HasPrefix(RelElements(bs, ts).value, "..")
  {
    var k := CommonPrefix(bs, ts);
    if k < |bs| && bs[k] != ".." {
      ClimbStartsWithDotDot(|bs| - k, ts[k..]);
    }
  }

  /** Every offset Rel returns that does not start with ".." is "." or a
      (possibly empty) list of plain names: it cannot climb above the base. */
  lemma {:induction false} RelWithoutDotDot(basepath: string, targpath: string, rel: string) returns (names: seq<string>)
    requires Rel(basepath, targpath) == Some(rel) && !HasPrefix(rel, "..")
    ensures AllNames(names)
    ensures rel == "." || rel == JoinSegs(names)
  {
    var base := Clean(basepath);
    var targ := Clean(targpath);
    if targ == base {
      names := [];
    } else {
      var b := if base == "." then "" else base;
      var bs := Segments(b);
      assert RelElements(bs, Segments(targ)) == Some(rel);
      if targ == "." {
        // Only a relative, non-"." base can reach here; its first element
        // cannot match ".", so Rel climbs.
        SegmentsClean(basepath);
        ElementsClean(basepath);
        RenderRooted(Rooted(basepath), Elements(basepath));
        assert b == base && b != "" && !Rooted(b);
        SplitDot();
        assert bs != [] && bs[0] != "." && Segments(targ) == ["."];
        assert CommonPrefix(bs, ["."]) == 0;
        ClimbStartsWithDotDot(|bs|, ["."]);
      } else {
        SegmentsClean(targpath);
        names := RelElementsNames(bs, Segments(targ), Rooted(targpath), rel);
      }
    }
  }

  /** The Rel of a path from itself is ".". */
  lemma RelSelf(a: string, b: string)
    requires Clean(a) == Clean(b)
    ensures Rel(a, b) == Some(".")
  {
  }

  lemma StripNoTrailingSlash(s: string)
    requires s != [] && s[|s| - 1] != '/'
    ensures StripTrailingSlashes(s) == s
  {
  }

  lemma RenderEnd(rooted: bool, st: seq<string>)
    requires CleanStack(st, rooted) && st != []
    ensures Render(rooted, st) != "" && Render(rooted, st)[|Render(rooted, st)| - 1] != '/'
  {
    assert NoSlashes(st);
    var r := Render(rooted, st);
    var j := JoinSegs(st);
    JoinSegsLast(st);
    var last := st[|st| - 1];
    assert last[|last| - 1] != '/' by { assert last[|last| - 1] in last; }
    assert r[|r| - 1] == j[|j| - 1];
  }

  lemma SplitRenderFull(rooted: bool, st: seq<string>)
    requires CleanStack(st, rooted) && st != []
    ensures Split(Render(rooted, st)) == (if rooted then [""] else []) + st
  {
    assert NoSlashes(st);
    SplitJoin(st);
    if rooted {
      var r := Render(rooted, st);
      assert r[0] == '/';
      assert r[1..] == JoinSegs(st);
    }
  }

  /** The Base of a cleaned path below the root is its last element. */
  lemma {:induction false} BaseRender(rooted: bool, st: seq<string>)
    requires CleanStack(st, rooted) && st != []
    ensures Base(Render(rooted, st)) == st[|st| - 1]
  {
    var r := Render(rooted, st);
    RenderEnd(rooted, st);
    StripNoTrailingSlash(r);
    SplitRenderFull(rooted, st);
    var parts := Split(r);
    assert parts[|parts| - 1] == st[|st| - 1];
  }
}
