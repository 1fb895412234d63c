/**
 * Module-name resolution of the AMD-style loader bundled with the standalone
 * distribution: `resolve(child, name)` interprets a dependency name relative
 * to the module that declares it, walking `.` and `..` path segments.
 */
module ModuleName {

  const Sep: char := '/'

  /** `s.split('/')`: the segments between separators, never an empty list. */
  function Split(s: string): (parts: seq<string>)
    ensures |parts| >= 1
    ensures forall i :: 0 <= i < |parts| ==> Sep !in parts[i]
    decreases |s|
  {
    if |s| == 0 then [""]
    else
      var rest := Split(s[1..]);
      if s[0] == Sep then [""] + rest
      else [[s[0]] + rest[0]] + rest[1..]
  }

  /** `parts.join('/')`; an empty list joins to the empty string. */
  function Join(parts: seq<string>): (r: string)
    ensures |parts| > 0 ==> parts[0] <= r
    ensures |parts| > 1 ==> parts[0] + [Sep] <= r
    ensures (forall i :: 0 <= i < |parts| ==> Sep !in parts[i]) ==> (Sep in r <==> |parts| > 1)
    decreases |parts|
  {
    if |parts| == 0 then ""
    else if |parts| == 1 then parts[0]
    else parts[0] + [Sep] + Join(parts[1..])
  }

  /** One iteration of the segment loop: `..` pops, `.` is skipped, anything else is pushed. */
  function Step(base: seq<string>, part: string): (r: seq<string>)
    ensures Plain(part) ==> r == base + [part]
    ensures !Plain(part) ==> r <= base && |r| >= |base| - 1
    ensures part == "." ==> r == base
    ensures |r| == |base| + 1 <==> Plain(part)
  {
    if part == ".." then (if |base| == 0 then base else base[..|base| - 1])
    else if part == "." then base
    else base + [part]
  }

  /** The loop over the child's segments, applied left to right to the parent base. */
  function Walk(base: seq<string>, parts: seq<string>): (r: seq<string>)
    // every segment of the result comes from the base or is a plain segment of the child
    ensures forall s :: s in r ==> s in base || (s in parts && Plain(s))
    decreases |parts|
  {
    if |parts| == 0 then base
    else
      var r := Walk(Step(base, parts[0]), parts[1..]);
      assert forall s :: s in parts[1..] ==> s in parts;
      r
  }

  /** The directory of the parent: all its segments but the last, or the whole name when it has one segment. */
  function ParentBase(nameParts: seq<string>): (base: seq<string>)
    requires |nameParts| >= 1
    ensures |nameParts| == 1 ==> base == nameParts
    ensures |nameParts| > 1 ==> base + [nameParts[|nameParts| - 1]] == nameParts
  {
    if |nameParts| == 1 then nameParts else nameParts[..|nameParts| - 1]
  }

  /** `child.charAt(0) === '.'`; `charAt(0)` of the empty string is `''`, which is not a dot. */
  predicate IsRelative(child: string) {
    |child| > 0 && child[0] == '.'
  }

  /** `resolve(child, name)`. */
  function Resolve(child: string, name: string): (r: string)
    ensures !IsRelative(child) ==> r == child
  {
    if !IsRelative(child) then child
    else Join(Walk(ParentBase(Split(name)), Split(child)))
  }

  /** Segments that the walk treats specially. */
  predicate Plain(part: string) {
    part != "." && part != ".."
  }

  // ---------------------------------------------------------------------------
  // Properties
  // ---------------------------------------------------------------------------

  /** A name is relative exactly when its first path segment starts with a dot. */
  lemma RelativeFirstSegment(child: string)
    ensures IsRelative(child) <==> |Split(child)[0]| > 0 && Split(child)[0][0] == '.'
  {
    if |child| > 0 && child[0] != Sep {
      assert Split(child)[0] == [child[0]] + Split(child[1..])[0];
    }
  }

  /** Splitting a joined string gives back the first segment glued to the split of the rest. */
  lemma {:induction false} SplitSegment(a: string, rest: string)
    requires Sep !in a
    ensures Split(a + rest) == [a + Split(rest)[0]] + Split(rest)[1..]
    decreases |a|
  {
    var sr := Split(rest);
    if |a| == 0 {
      assert a + rest == rest;
      assert sr == [sr[0]] + sr[1..];
      assert a + sr[0] == sr[0];
    } else {
      assert (a + rest)[1..] == a[1..] + rest;
      SplitSegment(a[1..], rest);
      assert [a[0]] + (a[1..] + Split(rest)[0]) == a + Split(rest)[0];
    }
  }

  /** Joining the segments of a string restores it. */
  lemma {:induction false} JoinSplit(s: string)
    ensures Join(Split(s)) == s
    decreases |s|
  {
    if |s| == 0 {
    } else {
      JoinSplit(s[1..]);
      var rest := Split(s[1..]);
      if s[0] == Sep {
        assert Split(s) == [""] + rest;
        assert Split(s)[1..] == rest;
        assert Join(Split(s)) == "" + [Sep] + Join(rest);
        assert s == [s[0]] + s[1..];
      } else {
        JoinHead(rest, [s[0]]);
        assert s == [s[0]] + s[1..];
      }
    }
  }

  /** Prefixing the first segment prefixes the joined string. */
  lemma {:induction false} JoinHead(parts: seq<string>, p: string)
    requires |parts| >= 1
    ensures Join([p + parts[0]] + parts[1..]) == p + Join(parts)
  {
    var q := [p + parts[0]] + parts[1..];
    assert q[1..] == parts[1..];
    if |parts| == 1 {
    } else {
      assert Join(q) == (p + parts[0]) + [Sep] + Join(parts[1..]);
    }
  }

  /** Splitting a join of separator-free segments restores the segments. */
  lemma {:induction false} SplitJoin(parts: seq<string>)
    requires |parts| >= 1
    requires forall i :: 0 <= i < |parts| ==> Sep !in parts[i]
    ensures Split(Join(parts)) == parts
    decreases |parts|
  {
    if |parts| == 1 {
      SplitSegment(parts[0], "");
      assert parts[0] + "" == parts[0];
      assert Split("") == [""];
      assert Split(Join(parts)) == [parts[0]];
    } else {
      var tail := Join(parts[1..]);
      SplitJoin(parts[1..]);
      assert Join(parts) == parts[0] + [Sep] + tail;
      assert Join(parts) == parts[0] + ([Sep] + tail);
      SplitSegment(parts[0], [Sep] + tail);
      assert ([Sep] + tail)[1..] == tail;
      var st := Split([Sep] + tail);
      assert st == [""] + parts[1..];
      assert st[0] == "" && st[1..] == parts[1..];
      assert parts[0] + st[0] == parts[0];
      assert parts == [parts[0]] + parts[1..];
    }
  }

  /** The walk over a concatenation is the walk over the second part from where the first one ended. */
  lemma {:induction false} WalkAppend(base: seq<string>, p: seq<string>, q: seq<string>)
    ensures Walk(base, p + q) == Walk(Walk(base, p), q)
    decreases |p|
  {
    if |p| == 0 {
      assert p + q == q;
    } else {
      assert (p + q)[1..] == p[1..] + q;
      WalkAppend(Step(base, p[0]), p[1..], q);
    }
  }

  /** Without `.` or `..` segments the walk only appends the child's segments. */
  lemma {:induction false} WalkPlain(base: seq<string>, parts: seq<string>)
    requires forall i :: 0 <= i < |parts| ==> Plain(parts[i])
    ensures Walk(base, parts) == base + parts
    decreases |parts|
  {
    if |parts| == 0 {
      assert base + parts == base;
    } else {
      assert Step(base, parts[0]) == base + [parts[0]];
      assert Walk(base, parts) == Walk(base + [parts[0]], parts[1..]);
      WalkPlain(base + [parts[0]], parts[1..]);
      assert base + [parts[0]] + parts[1..] == base + parts;
    }
  }

  /** Each segment moves the result by at most one element, so its length stays within `|parts|` of the base. */
  lemma {:induction false} WalkLength(base: seq<string>, parts: seq<string>)
    ensures |base| - |parts| <= |Walk(base, parts)| <= |base| + |parts|
    decreases |parts|
  {
    if |parts| > 0 {
      WalkLength(Step(base, parts[0]), parts[1..]);
    }
  }

  /** A walk never produces `.` or `..` segments that were not already in the base. */
  lemma {:induction false} WalkNormal(base: seq<string>, parts: seq<string>)
    requires forall i :: 0 <= i < |base| ==> Plain(base[i])
    ensures forall i :: 0 <= i < |Walk(base, parts)| ==> Plain(Walk(base, parts)[i])
    decreases |parts|
  {
    if |parts| > 0 {
      var b := Step(base, parts[0]);
      assert forall i :: 0 <= i < |b| ==> Plain(b[i]);
      WalkNormal(b, parts[1..]);
    }
  }

  /**
   * The single-segment parent quirk: a parent name without `/` is its own base,
   * so `./x` declared by `a` resolves to `a/x`, not to the sibling `x`.
   */
  lemma SingleSegmentParent(name: string, x: string)
    requires Sep !in name && Sep !in x && Plain(x)
    ensures Resolve("./" + x, name) == name + "/" + x
  {
    var child := "./" + x;
    assert child == Join([".", x]);
    SplitJoin([".", x]);
    assert Split(name) == [name] by {
      SplitJoin([name]);
    }
    assert Walk([name], [x]) == Walk([name, x], []);
    assert Walk([name], [".", x]) == Walk([name], [x]);
    assert Join([name, x]) == name + "/" + x;
  }

  /** The segments of `./x` and `../x`. */
  lemma DotSegments(dots: string, x: string)
    requires dots == "." || dots == ".."
    requires Sep !in x
    ensures Split(dots + "/" + x) == [dots, x]
  {
    assert dots + "/" + x == Join([dots, x]);
    SplitJoin([dots, x]);
  }

  /** The parent base of a name with a directory part is that directory. */
  lemma DirectoryBase(dir: seq<string>, last: string)
    requires |dir| >= 1
    requires forall i :: 0 <= i < |dir| ==> Sep !in dir[i]
    requires Sep !in last
    ensures ParentBase(Split(Join(dir + [last]))) == dir
  {
    var nameParts := dir + [last];
    assert forall i :: 0 <= i < |nameParts| ==> Sep !in nameParts[i];
    SplitJoin(nameParts);
  }

  /** For a parent with a directory, `./x` lands next to the parent. */
  lemma SiblingOfParent(dir: seq<string>, last: string, x: string)
    requires |dir| >= 1
    requires forall i :: 0 <= i < |dir| ==> Sep !in dir[i]
    requires Sep !in last && Sep !in x && Plain(x)
    ensures Resolve("./" + x, Join(dir + [last])) == Join(dir + [x])
  {
    var child := "./" + x;
    assert IsRelative(child);
    assert Split(child) == [".", x] by {
      assert child == "." + "/" + x;
      DotSegments(".", x);
    }
    assert ParentBase(Split(Join(dir + [last]))) == dir by {
      DirectoryBase(dir, last);
    }
    assert Walk(dir, [".", x]) == dir + [x] by {
      assert Walk(dir, [x]) == Walk(dir + [x], []);
    }
  }

  /** For a parent with a directory, `../x` lands one level above the parent's directory. */
  lemma UncleOfParent(dir: seq<string>, last: string, x: string)
    requires |dir| >= 1
    requires forall i :: 0 <= i < |dir| ==> Sep !in dir[i]
    requires Sep !in last && Sep !in x && Plain(x)
    ensures Resolve("../" + x, Join(dir + [last])) == Join(dir[..|dir| - 1] + [x])
  {
    var child := "../" + x;
    assert IsRelative(child);
    assert Split(child) == ["..", x] by {
      assert child == ".." + "/" + x;
      DotSegments("..", x);
    }
    assert ParentBase(Split(Join(dir + [last]))) == dir by {
      DirectoryBase(dir, last);
    }
    var up := dir[..|dir| - 1];
    assert Walk(dir, ["..", x]) == up + [x] by {
      assert Step(dir, "..") == up;
      assert Walk(up, [x]) == Walk(up + [x], []);
    }
    assert Resolve(child, Join(dir + [last])) == Join(Walk(dir, ["..", x]));
  }

  lemma ResolveExamples()
    ensures Resolve("ember", "ivy-codemirror/index") == "ember"
    ensures Resolve("./b", "a") == "a/b"
  {
    SingleSegmentParent("a", "b");
    assert "./" + "b" == "./b" && "a" + "/" + "b" == "a/b";
  }
}
