/**
 POSIX path strings as the locator builds them: `os.path.join`, the string
 form of a `pathlib.Path`, a path's final component and its suffix.
 */
module Paths {
  import opened Types

  predicate StartsWith(s: string, prefix: string) {
    |prefix| <= |s| && s[..|prefix|] == prefix
  }

  predicate EndsWith(s: string, suffix: string) {
    |suffix| <= |s| && s[|s| - |suffix|..] == suffix
  }

  /** A name a directory listing can hold: non-empty, no separator, not `.` or `..`. */
  predicate ValidName(name: string) {
    name != "" && '/' !in name && name != "." && name != ".."
  }

  /** The index of the last occurrence of `c` in `s`, if any. */
  function LastIndexOf(s: string, c: char): (r: Option<nat>)
    ensures r.Some? ==> r.value < |s| && s[r.value] == c
    ensures r.Some? ==> forall j :: r.value < j < |s| ==> s[j] != c
    ensures r.None? ==> forall j :: 0 <= j < |s| ==> s[j] != c
  {
    if |s| == 0 then None
    else if s[|s| - 1] == c then Some(|s| - 1)
    else LastIndexOf(s[..|s| - 1], c)
  }

  /** `os.path.join(a, b)`: an absolute `b` discards `a`; a separator is added when needed. */
  function Join(a: string, b: string): (r: string)
    ensures |r| >= |b|
  {
    if StartsWith(b, "/") then b
    else if a == "" || EndsWith(a, "/") then a + b
    else a + "/" + b
  }

  /** `str(Path(s))`, for the one normalisation the locator relies on:
      trailing separators are dropped, a lone `/` is kept. */
  function PathString(s: string): (r: string)
    decreases |s|
  {
    if |s| > 1 && s[|s| - 1] == '/' then PathString(s[..|s| - 1]) else s
  }

  /** `str(Path(p) / name)` for a relative, separator-free `name`. */
  function PathChild(p: string, name: string): string {
    var q := PathString(p);
    if q == "" then name
    else if EndsWith(q, "/") then q + name
    else q + "/" + name
  }

  /** `Path(p).name`: the text after the last separator of the normalised path. */
  function BaseName(p: string): string {
    var q := PathString(p);
    match LastIndexOf(q, '/')
    case Some(i) => q[i + 1..]
    case None => q
  }

  /** `PurePath.suffix` of a final component: from its last dot, unless that dot
      opens the name or closes it. */
  function Suffix(name: string): (r: string)
    ensures |r| <= |name|
  {
    match LastIndexOf(name, '.')
    case Some(i) => if 0 < i < |name| - 1 then name[i..] else ""
    case None => ""
  }

  /** `PurePath.with_suffix('').name` of a final component. */
  function Stem(name: string): string {
    name[..|name| - |Suffix(name)|]
  }

  // ---------------------------------------------------------------------
  // Properties

  /** A stem and its suffix put back together give the name again. */
  lemma {:induction false} StemSuffixRoundTrip(name: string)
    ensures Stem(name) + Suffix(name) == name
  {
    var k := |name| - |Suffix(name)|;
    assert Suffix(name) == name[k..];
  }

  /** `os.path.join` keeps its second argument at the end of the path. */
  lemma {:induction false} JoinEndsWithName(a: string, b: string)
    ensures Join(a, b)[|Join(a, b)| - |b|..] == b
  {
  }

  /** A name ending in `.urdf` and `.sdf` at once does not exist. */
  lemma {:induction false} ModelSuffixesExclusive(s: string)
    ensures !(EndsWith(s, ".urdf") && EndsWith(s, ".sdf"))
  {
    if EndsWith(s, ".urdf") {
      assert s[|s| - 4] == s[|s| - 5..][1] == 'u';
    }
  }

  /** The stem of a model file name is the name without its extension, except
      for a hidden file named exactly like the extension, whose stem is the whole
      name (its only dot opens it). */
  lemma {:induction false} StemOfExtension(name: string, ext: string)
    requires ext == ".urdf" || ext == ".sdf"
    requires EndsWith(name, ext)
    ensures |name| > |ext| ==> Suffix(name) == ext && Stem(name) == name[..|name| - |ext|]
    ensures |name| == |ext| ==> Suffix(name) == "" && Stem(name) == name
  {
    var dot := |name| - |ext|;
    assert name[dot..] == ext;
    assert name[dot] == '.';
    forall j | dot < j < |name|
      ensures name[j] != '.'
    {
      assert name[j] == ext[j - dot];
    }
    var r := LastIndexOf(name, '.');
    assert r.Some? && r.value == dot;
  }

  /** A separator-free name joined under any directory is that path's base name. */
  lemma {:induction false} BaseNameOfJoin(dir: string, name: string)
    requires ValidName(name)
    ensures BaseName(Join(dir, name)) == name
  {
    assert name[0] in name && name[|name| - 1] in name;
    var p := Join(dir, name);
    NoTrailingSeparator(p);
    if dir == "" {
      assert p == name;
      assert LastIndexOf(name, '/').None?;
    } else if EndsWith(dir, "/") {
      assert p == dir + name;
      assert p[|dir|..] == name;
      LastSeparatorAt(p, |dir| - 1);
    } else {
      assert p == dir + "/" + name;
      assert p[|dir| + 1..] == name;
      LastSeparatorAt(p, |dir|);
    }
  }

  lemma {:induction false} NoTrailingSeparator(p: string)
    requires |p| > 0 && p[|p| - 1] != '/'
    ensures PathString(p) == p
  {
  }

  lemma {:induction false} LastSeparatorAt(p: string, i: nat)
    requires i < |p| && p[i] == '/'
    requires '/' !in p[i + 1..]
    ensures LastIndexOf(p, '/') == Some(i)
  {
    forall j | i < j < |p|
      ensures p[j] != '/'
    {
      assert p[j] == p[i + 1..][j - i - 1];
    }
  }

  /** The stem of a `.urdf` file's path, once the file is joined under a directory. */
  lemma {:induction false} StemOfJoinedModel(dir: string, b: string)
    requires ValidName(b) && EndsWith(b, ".urdf")
    ensures |b| > 5 ==> Stem(BaseName(Join(dir, b))) + ".urdf" == b
    ensures |b| == 5 ==> Stem(BaseName(Join(dir, b))) == b
  {
    BaseNameOfJoin(dir, b);
    StemOfExtension(b, ".urdf");
  }
}
