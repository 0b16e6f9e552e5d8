/** POSIX paths as strings: splitting at slashes, joining, and the normalisation of `path.resolve`. */
module Paths {
  /** `s.split('/')`. */
  function Split(s: string): (r: seq<string>)
    ensures |r| > 0
  {
    if |s| == 0 then [""] else Prepend(s[0], Split(s[1..]))
  }

  /** The segments of a string with one more character in front. */
  function Prepend(c: char, segments: seq<string>): (r: seq<string>)
    requires |segments| > 0
    ensures |r| > 0
  {
    if c == '/' then [""] + segments else [[c] + segments[0]] + segments[1..]
  }

  function Join(segments: seq<string>): string {
    if |segments| == 0 then "" else if |segments| == 1 then segments[0] else segments[0] + "/" + Join(segments[1..])
  }

  predicate NoSlash(s: string) { '/' !in s }

  /** A directory or file name a normalised path may contain. */
  predicate IsName(s: string) { NoSlash(s) && s != "" && s != "." && s != ".." }

  predicate AreNames(segments: seq<string>) { forall x | x in segments :: IsName(x) }

  /** Path normalisation: empty and `.` segments vanish, `..` drops the segment before it. */
  function Normalize(segments: seq<string>, stack: seq<string>): seq<string> {
    if |segments| == 0 then stack
    else
      var x := segments[0];
      Normalize(segments[1..],
                if x == "" || x == "." then stack
                else if x == ".." then (if |stack| == 0 then stack else stack[..|stack| - 1])
                else stack + [x])
  }

  function AbsolutePath(names: seq<string>): string { "/" + Join(names) }

  /** `path.resolve` of an absolute path, as the names below the root directory. */
  function ResolveNames(path: string): seq<string> { Normalize(Split(path), []) }

  function Resolve(path: string): string { AbsolutePath(ResolveNames(path)) }

  predicate StartsWith(s: string, prefix: string) { prefix <= s }

  lemma {:induction false} SplitSegments(s: string)
    ensures forall x | x in Split(s) :: NoSlash(x)
  {
    if |s| > 0 {
      SplitSegments(s[1..]);
      assert Split(s[1..])[0] in Split(s[1..]);
    }
  }

  lemma {:induction false} SplitName(s: string)
    requires NoSlash(s)
    ensures Split(s) == [s]
  {
    if |s| > 0 {
      assert s[0] in s && forall c | c in s[1..] :: c in s;
      SplitName(s[1..]);
      assert [s[0]] + s[1..] == s && [s[1..]][1..] == [];
    }
  }

  lemma PrependConcat(c: char, x: seq<string>, y: seq<string>)
    requires |x| > 0
    ensures Prepend(c, x + y) == Prepend(c, x) + y
  {
  }

  lemma {:induction false} SplitConcat(a: string, b: string)
    ensures Split(a + "/" + b) == Split(a) + Split(b)
  {
    var t := a + "/" + b;
    if |a| == 0 {
      assert t[1..] == b;
    } else {
      SplitConcat(a[1..], b);
      assert t[1..] == a[1..] + "/" + b && t[0] == a[0];
      PrependConcat(a[0], Split(a[1..]), Split(b));
    }
  }

  lemma {:induction false} SplitJoin(segments: seq<string>)
    requires |segments| > 0 && forall x | x in segments :: NoSlash(x)
    ensures Split(Join(segments)) == segments
  {
    assert segments[0] in segments;
    SplitName(segments[0]);
    if |segments| > 1 {
      assert forall x | x in segments[1..] :: x in segments;
      SplitJoin(segments[1..]);
      SplitConcat(segments[0], Join(segments[1..]));
    }
  }

  lemma {:induction false} JoinSplit(s: string)
    ensures Join(Split(s)) == s
  {
    if |s| > 0 {
      var rest := Split(s[1..]);
      JoinSplit(s[1..]);
      assert Prepend(s[0], rest)[1..] == if s[0] == '/' then rest else rest[1..];
    }
  }

  lemma {:induction false} JoinConcat(a: seq<string>, b: seq<string>)
    requires |a| > 0 && |b| > 0
    ensures Join(a + b) == Join(a) + "/" + Join(b)
  {
    if |a| > 1 {
      assert (a + b)[1..] == a[1..] + b;
      JoinConcat(a[1..], b);
    } else {
      assert (a + b)[1..] == b;
    }
  }

  /** An absolute path of names splits back into them. */
  lemma SplitAbsolute(names: seq<string>)
    requires AreNames(names)
    ensures Split(AbsolutePath(names)) == [""] + if |names| == 0 then [""] else names
  {
    SplitConcat("", Join(names));
    assert "" + "/" + Join(names) == AbsolutePath(names);
    if |names| > 0 {
      SplitJoin(names);
    }
  }

  lemma AbsolutePathInjective(a: seq<string>, b: seq<string>)
    requires AreNames(a) && AreNames(b) && AbsolutePath(a) == AbsolutePath(b)
    ensures a == b
  {
    SplitAbsolute(a);
    SplitAbsolute(b);
    assert |a| > 0 ==> a[0] in a && a[0] == Split(AbsolutePath(a))[1];
    assert |b| > 0 ==> b[0] in b && b[0] == Split(AbsolutePath(b))[1];
    assert |a| > 0 ==> a == Split(AbsolutePath(a))[1..];
    assert |b| > 0 ==> b == Split(AbsolutePath(b))[1..];
  }

  lemma {:induction false} NormalizeNames(names: seq<string>, stack: seq<string>, rest: seq<string>)
    requires AreNames(names)
    ensures Normalize(names + rest, stack) == Normalize(rest, stack + names)
  {
    if |names| == 0 {
      assert names + rest == rest && stack + names == stack;
    } else {
      assert names[0] in names && forall x | x in names[1..] :: x in names;
      assert (names + rest)[1..] == names[1..] + rest;
      NormalizeNames(names[1..], stack + [names[0]], rest);
      assert stack + [names[0]] + names[1..] == stack + names;
    }
  }

  lemma NormalizeEmpty(rest: seq<string>, stack: seq<string>)
    ensures Normalize([""] + rest, stack) == Normalize(rest, stack)
  {
  }

  lemma {:induction false} NormalizeYieldsNames(segments: seq<string>, stack: seq<string>)
    requires AreNames(stack) && forall x | x in segments :: NoSlash(x)
    ensures AreNames(Normalize(segments, stack))
  {
    if |segments| > 0 {
      var x := segments[0];
      assert x in segments && forall y | y in segments[1..] :: y in segments;
      NormalizeYieldsNames(segments[1..],
                           if x == "" || x == "." then stack
                           else if x == ".." then (if |stack| == 0 then stack else stack[..|stack| - 1])
                           else stack + [x]);
    }
  }

  /** Whatever the path, resolving it yields an absolute path of names. */
  lemma ResolveYieldsNames(path: string)
    ensures AreNames(ResolveNames(path))
  {
    SplitSegments(path);
    NormalizeYieldsNames(Split(path), []);
  }

  lemma NormalizeBelowRoot(rest: seq<string>)
    ensures Normalize([""] + [""] + rest, []) == Normalize(rest, [])
  {
    assert [""] + [""] + rest == [""] + ([""] + rest);
    NormalizeEmpty([""] + rest, []);
    NormalizeEmpty(rest, []);
  }

  lemma NormalizeBelowNames(dirs: seq<string>, rest: seq<string>)
    requires AreNames(dirs)
    ensures Normalize([""] + dirs + rest, []) == Normalize(rest, dirs)
  {
    assert [""] + dirs + rest == [""] + (dirs + rest);
    NormalizeEmpty(dirs + rest, []);
    NormalizeNames(dirs, [], rest);
    assert [] + dirs == dirs;
  }

  /** Resolving a path below a resolved directory. */
  lemma ResolveBelow(dirs: seq<string>, suffix: string)
    requires AreNames(dirs)
    ensures ResolveNames(AbsolutePath(dirs) + "/" + suffix) == Normalize(Split(suffix), dirs)
  {
    SplitConcat(AbsolutePath(dirs), suffix);
    SplitAbsolute(dirs);
    if |dirs| == 0 {
      NormalizeBelowRoot(Split(suffix));
    } else {
      NormalizeBelowNames(dirs, Split(suffix));
    }
  }
}
