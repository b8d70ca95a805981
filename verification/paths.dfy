/** POSIX path handling as the static server uses it: `path.join` of the root
    and the decoded request path, `path.normalize`, and `path.extname`. A path
    is split at `/` into parts; normalising drops empty and `.` parts, lets
    `..` remove the previous kept part (never going above `/`), and keeps a
    trailing separator. */
module Paths {
  import opened Common

  // ---------------------------------------------------------------------------
  // Splitting and rendering

  /** The parts between separators: `"/a//b"` splits into `["", "a", "", "b"]`. */
  function Split(s: string): (parts: seq<string>)
    ensures |parts| >= 1
    decreases |s|
  {
    if |s| == 0 then [""]
    else if s[0] == '/' then [""] + Split(s[1..])
    else
      var r := Split(s[1..]);
      [[s[0]] + r[0]] + r[1..]
  }

  /** No part contains a separator. */
  lemma {:induction false} SplitNoSlash(s: string)
    ensures forall i :: 0 <= i < |Split(s)| ==> '/' !in Split(s)[i]
    decreases |s|
  {
    if |s| > 0 {
      SplitNoSlash(s[1..]);
      if s[0] != '/' {
        var r := Split(s[1..]);
        assert '/' !in r[0];
        assert '/' !in [s[0]] + r[0];
      }
    }
  }

  /** A string without separators is one part. */
  lemma {:induction false} SplitSegment(x: string)
    requires '/' !in x
    ensures Split(x) == [x]
    decreases |x|
  {
    if |x| > 0 {
      assert x[0] != '/';
      SplitSegment(x[1..]);
      assert [x[0]] + x[1..] == x;
    }
  }

  /** Splitting at a separator splits the two sides independently. */
  lemma {:induction false} SplitAppend(a: string, b: string)
    ensures Split(a + "/" + b) == Split(a) + Split(b)
    decreases |a|
  {
    var s := a + "/" + b;
    if |a| == 0 {
      assert s == "/" + b && s[1..] == b;
    } else {
      assert s[0] == a[0] && s[1..] == a[1..] + "/" + b;
      SplitAppend(a[1..], b);
    }
  }

  /** A kept part: non-empty, not `.` or `..`, without a separator. */
  predicate ValidSeg(x: string)
  {
    x != "" && x != "." && x != ".." && '/' !in x
  }

  predicate ValidSegs(segs: seq<string>)
  {
    forall i :: 0 <= i < |segs| ==> ValidSeg(segs[i])
  }

  /** The absolute path of some kept parts, without a trailing separator. */
  function Abs(segs: seq<string>): (s: string)
    ensures |segs| > 0 ==> |s| > 0 && s[0] == '/'
  {
    if |segs| == 0 then "" else "/" + segs[0] + Abs(segs[1..])
  }

  lemma {:induction false} AbsAppend(r: seq<string>, t: seq<string>)
    ensures Abs(r + t) == Abs(r) + Abs(t)
  {
    if |r| > 0 {
      assert (r + t)[0] == r[0] && (r + t)[1..] == r[1..] + t;
      AbsAppend(r[1..], t);
    } else {
      assert r + t == t;
    }
  }

  /** The absolute path of valid parts splits back into them, after the empty
      part before the leading separator. */
  lemma {:induction false} SplitAbs(segs: seq<string>)
    requires ValidSegs(segs) && |segs| > 0
    ensures Split(Abs(segs)) == [""] + segs
  {
    var x, rest := segs[0], segs[1..];
    assert ValidSeg(x);
    assert Abs(segs) == "/" + (x + Abs(rest));
    assert Split(Abs(segs)) == [""] + Split(x + Abs(rest)) by {
      SplitSlash(x + Abs(rest));
    }
    assert Split(x) == [x] by {
      SplitSegment(x);
    }
    if |rest| == 0 {
      assert x + Abs(rest) == x && segs == [x];
    } else {
      var y := Abs(rest)[1..];
      assert Split(y) == rest by {
        SplitAbs(rest);
        assert Abs(rest) == "/" + y;
        SplitSlash(y);
        assert Split(y) == ([""] + Split(y))[1..] == ([""] + rest)[1..];
      }
      assert Split(x + Abs(rest)) == [x] + rest by {
        assert x + Abs(rest) == x + "/" + y;
        SplitAppend(x, y);
      }
      assert segs == [x] + rest;
    }
  }

  lemma SplitSlash(t: string)
    ensures Split("/" + t) == [""] + Split(t)
  {
    assert ("/" + t)[1..] == t;
  }

  /** The last character of a non-empty absolute path of valid parts is not a
      separator. */
  lemma {:induction false} AbsLast(segs: seq<string>)
    requires ValidSegs(segs) && |segs| > 0
    ensures |Abs(segs)| >= 2 && Abs(segs)[|Abs(segs)| - 1] != '/'
  {
    var x := segs[0];
    assert ValidSeg(x);
    if |segs| > 1 {
      AbsLast(segs[1..]);
    } else {
      assert Abs(segs) == "/" + x;
      assert x[|x| - 1] in x;
    }
  }

  // ---------------------------------------------------------------------------
  // Normalising

  /** One part of `normalizeString` for an absolute path. */
  function StepPart(stack: seq<string>, part: string): seq<string>
  {
    if part == "" || part == "." then stack
    else if part == ".." then (if |stack| == 0 then stack else stack[..|stack| - 1])
    else stack + [part]
  }

  function Resolve(stack: seq<string>, parts: seq<string>): seq<string>
    decreases |parts|
  {
    if |parts| == 0 then stack else Resolve(StepPart(stack, parts[0]), parts[1..])
  }

  lemma {:induction false} ResolveAppend(stack: seq<string>, a: seq<string>, b: seq<string>)
    ensures Resolve(stack, a + b) == Resolve(Resolve(stack, a), b)
    decreases |a|
  {
    if |a| > 0 {
      assert (a + b)[0] == a[0] && (a + b)[1..] == a[1..] + b;
      ResolveAppend(StepPart(stack, a[0]), a[1..], b);
    } else {
      assert a + b == b;
    }
  }

  /** Valid parts are simply pushed. */
  lemma {:induction false} ResolvePush(stack: seq<string>, segs: seq<string>)
    requires ValidSegs(segs)
    ensures Resolve(stack, segs) == stack + segs
    decreases |segs|
  {
    if |segs| > 0 {
      assert ValidSeg(segs[0]);
      ResolvePush(stack + [segs[0]], segs[1..]);
      assert stack + [segs[0]] + segs[1..] == stack + segs;
    }
  }

  /** Resolving parts without separators only ever keeps valid parts. */
  lemma {:induction false} ResolveValid(stack: seq<string>, parts: seq<string>)
    requires ValidSegs(stack)
    requires forall i :: 0 <= i < |parts| ==> '/' !in parts[i]
    ensures ValidSegs(Resolve(stack, parts))
    decreases |parts|
  {
    if |parts| > 0 {
      var next := StepPart(stack, parts[0]);
      assert ValidSegs(next);
      ResolveValid(next, parts[1..]);
    }
  }

  /** How a normalised absolute path is written: `/` alone for no parts,
      otherwise the parts, plus a separator when the input ended with one. */
  function Render(segs: seq<string>, trailing: bool): (s: string)
    ensures |s| > 0 && s[0] == '/'
  {
    if |segs| == 0 then "/" else Abs(segs) + (if trailing then "/" else "")
  }

  function EndsWithSlash(s: string): bool
  {
    |s| > 0 && s[|s| - 1] == '/'
  }

  /** `path.normalize` of an absolute path. */
  function Normalize(p: string): (r: string)
    requires |p| > 0 && p[0] == '/'
    ensures |r| > 0 && r[0] == '/'
  {
    Render(Resolve([], Split(p)), EndsWithSlash(p))
  }

  /** The absolute directory with the given parts, as `__dirname` is written. */
  function RootPath(root: seq<string>): (s: string)
    ensures |s| > 0 && s[0] == '/'
  {
    if |root| == 0 then "/" else Abs(root)
  }

  /** `path.join(root, p)`: the two joined by a separator, an empty second
      argument ignored, then normalised. */
  function Join(root: seq<string>, p: string): (r: string)
    ensures |r| > 0 && r[0] == '/'
  {
    if p == "" then Normalize(RootPath(root)) else Normalize(RootPath(root) + "/" + p)
  }

  /** What the join resolves to: the root's parts followed by the request's,
      resolved on top of them; the separator after the root never shows. */
  lemma JoinResolves(root: seq<string>, p: string)
    requires ValidSegs(root)
    ensures Join(root, p) == Render(Resolve(root, Split(p)), p != "" && EndsWithSlash(p))
  {
    var rootStr := RootPath(root);
    if |root| == 0 {
      assert Split("/") == [""] + Split("");
      assert Split(rootStr) == ["", ""];
    } else {
      SplitAbs(root);
    }
    ResolvePush([], root);
    assert Resolve([], Split(rootStr)) == root by {
      if |root| > 0 {
        ResolveAppend([], [""], root);
      }
    }
    if p == "" {
      assert Split(p) == [""];
      assert Resolve(root, Split(p)) == root;
      if |root| > 0 {
        AbsLast(root);
      }
    } else {
      SplitAppend(rootStr, p);
      ResolveAppend([], Split(rootStr), Split(p));
      var joined := rootStr + "/" + p;
      assert joined[|joined| - 1] == p[|p| - 1];
    }
  }

  // ---------------------------------------------------------------------------
  // Prefixes of absolute paths

  /** Two separator-free words each followed by a separator: if one such
      string is a prefix of the other, the words are equal. */
  lemma HeadSegmentEqual(r: string, s: string, x: string, y: string)
    requires '/' !in r && '/' !in s
    requires |x| > 0 && x[0] == '/' && |y| > 0 && y[0] == '/'
    requires r + x <= s + y
    ensures r == s && x <= y
  {
    if |r| != |s| {
      assert false;
    }
    assert r == (r + x)[..|r|] == (s + y)[..|s|] == s;
    assert x == (r + x)[|r|..];
    assert y == (s + y)[|s|..];
  }

  /** Directory containment read off the written paths: when `/R/` is a prefix of
      `/S/`, the parts `R` are a prefix of the parts `S`. */
  lemma {:induction false} PrefixSegments(r: seq<string>, s: seq<string>)
    requires ValidSegs(r) && ValidSegs(s)
    requires Abs(r) + "/" <= Abs(s) + "/"
    ensures r <= s
  {
    if |r| > 0 {
      assert ValidSeg(r[0]);
      assert |Abs(r) + "/"| >= 3;
      assert ValidSeg(s[0]);
      var x := Abs(r[1..]) + "/";
      var y := Abs(s[1..]) + "/";
      assert Abs(r) + "/" == "/" + (r[0] + x);
      assert Abs(s) + "/" == "/" + (s[0] + y);
      var a := r[0] + x;
      var b := s[0] + y;
      assert "/" + a <= "/" + b;
      assert a == ("/" + a)[1..] == ("/" + b)[1..|a| + 1] == b[..|a|];
      HeadSegmentEqual(r[0], s[0], x, y);
      PrefixSegments(r[1..], s[1..]);
      assert r == [r[0]] + r[1..];
      assert s == [s[0]] + s[1..];
    }
  }

  /** Conversely, a path below the root starts with the root and a separator. */
  lemma BelowRootPrefix(r: seq<string>, s: seq<string>, trailing: bool)
    requires ValidSegs(r) && r <= s
    ensures var p := Render(s, trailing);
            p == RootPath(r) || RootPath(r) + "/" <= p || (|r| == 0 && "/" <= p)
  {
    if |r| > 0 {
      var t := s[|r|..];
      assert s == r + t;
      AbsAppend(r, t);
      if |t| > 0 {
        assert Abs(t)[0] == '/';
        assert Abs(r) + "/" <= Abs(r) + Abs(t);
      }
    }
  }

  // ---------------------------------------------------------------------------
  // Extensions

  /** `path.extname` strips trailing separators first. */
  function TrimTrailingSlashes(s: string): (r: string)
    ensures r <= s && !EndsWithSlash(r)
  {
    if EndsWithSlash(s) then TrimTrailingSlashes(s[..|s| - 1]) else s
  }

  /** The index of the last `c` in `s`, if any. */
  function LastIndexOf(s: string, c: char): (r: Option<nat>)
    ensures r.Some? ==> r.value < |s| && s[r.value] == c && forall j :: r.value < j < |s| ==> s[j] != c
    ensures r.None? ==> c !in s
  {
    if |s| == 0 then None
    else if s[|s| - 1] == c then Some(|s| - 1)
    else
      var r := LastIndexOf(s[..|s| - 1], c);
      assert s == s[..|s| - 1] + [s[|s| - 1]];
      r
  }

  /** The last path component, trailing separators ignored. */
  function Basename(p: string): (b: string)
    ensures '/' !in b
  {
    var t := TrimTrailingSlashes(p);
    match LastIndexOf(t, '/')
    case None => t
    case Some(i) =>
      t[i + 1..]
  }

  /** `path.extname`: from the last `.` of the last component to its end, or
      empty when there is no `.`, when the only candidate is the component's
      first character, or when the component is `..`. */
  function Extname(p: string): (e: string)
    ensures e == "" || (e[0] == '.' && '.' !in e[1..] && '/' !in e)
  {
    ExtOfBase(Basename(p))
  }

  /** The extension of one path component: a suffix of it. */
  function ExtOfBase(b: string): (e: string)
    ensures e == "" || (e[0] == '.' && '.' !in e[1..] && |e| <= |b| && e == b[|b| - |e|..])
  {
    match LastIndexOf(b, '.')
    case None => ""
    case Some(i) =>
      if i == 0 || b == ".." then ""
      else
        assert forall j :: 1 <= j < |b| - i ==> b[i..][j] == b[i + j];
        b[i..]
  }
}
