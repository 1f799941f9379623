/** Which files the sorter looks at: a file qualifies when its extension is one of
    the configured file patterns. */
module Paths {
  import opened Config

  /** No `/` and no `.` at indices `from` up to `to`. */
  predicate PlainRun(path: string, from: nat, to: nat)
    requires to <= |path|
  {
    forall m :: from <= m < to ==> path[m] != '/' && path[m] != '.'
  }

  /** Every `.` before `to` has a `/` after it, still before `to`. */
  predicate DotsBehindSeparator(path: string, to: nat)
    requires to <= |path|
  {
    forall k :: 0 <= k < to && path[k] == '.' ==> exists m :: k < m < to && path[m] == '/'
  }

  /** The backward scan of `filepath.Ext` (with `/` as separator), started at
      index `i`: step back until a `/` or a `.`. A `.` found first starts the
      result, which runs to the end of the WHOLE path: the suffix of `path` from the
      last `.` of `path[..i]` that no `/` of `path[..i]` follows, or empty when there
      is no such `.`. Only `i == |path|` is `filepath.Ext` itself. */
  function ExtBefore(path: string, i: nat): (r: string)
    requires i <= |path|
    ensures r != "" ==> exists k :: 0 <= k < i && r == path[k..] && path[k] == '.' && PlainRun(path, k + 1, i)
    ensures r == "" ==> DotsBehindSeparator(path, i)
  {
    if i == 0 || path[i - 1] == '/' then ""
    else if path[i - 1] == '.' then path[i - 1..]
    else ExtBefore(path, i - 1)
  }

  /** `filepath.Ext`: the suffix from the last `.` of the last path element, or
      empty when that element holds no `.`. */
  function Ext(path: string): string {
    ExtBefore(path, |path|)
  }

  /** An extension is what Go calls one: empty, or a `.` followed by neither a
      `/` nor another `.`. */
  predicate IsExtension(e: string) {
    e == "" || (e[0] == '.' && forall m :: 1 <= m < |e| ==> e[m] != '/' && e[m] != '.')
  }

  /** The extension of a path is a suffix of it and has the form of an extension;
      it is empty exactly when every `.` of the path lies before some `/`. */
  lemma ExtShape(path: string)
    ensures IsExtension(Ext(path))
    ensures |Ext(path)| <= |path| && Ext(path) == path[|path| - |Ext(path)|..]
    ensures Ext(path) == "" <==> DotsBehindSeparator(path, |path|)
  {
    var r := Ext(path);
    if r != "" {
      var k :| 0 <= k < |path| && r == path[k..] && path[k] == '.' && PlainRun(path, k + 1, |path|);
      ExtensionFromDot(path, k);
    }
  }

  /** The suffix from a `.` followed by neither `/` nor `.` is an extension, and
      that `.` has no `/` after it. */
  lemma ExtensionFromDot(path: string, k: nat)
    requires k < |path| && path[k] == '.' && PlainRun(path, k + 1, |path|)
    ensures IsExtension(path[k..])
    ensures !DotsBehindSeparator(path, |path|)
  {
    var r := path[k..];
    forall m | 1 <= m < |r| ensures r[m] != '/' && r[m] != '.' {
      assert r[m] == path[k + m];
    }
  }

  /** Walking back from `i` over neither `/` nor `.` reaches the `.` at `last`. */
  lemma {:induction false} ExtBeforeDot(path: string, last: nat, i: nat)
    requires last < i <= |path| && path[last] == '.' && PlainRun(path, last + 1, i)
    ensures ExtBefore(path, i) == path[last..]
    decreases i
  {
    if i > last + 1 {
      ExtBeforeDot(path, last, i - 1);
    }
  }

  /** Whatever comes before a file name, the name's own extension is the path's:
      `Ext(p + e) == e` for every extension `e` beginning with `.`. */
  lemma ExtOfSuffix(p: string, e: string)
    requires IsExtension(e) && e != ""
    ensures Ext(p + e) == e
  {
    var s := p + e;
    assert forall m :: |p| <= m < |s| ==> s[m] == e[m - |p|];
    ExtBeforeDot(s, |p|, |s|);
    assert s[|p|..] == e;
  }

  /** `fileHasValidExtension`: scan the configured file patterns for the path's
      extension. The answer is whether that extension is one of them. */
  method FileHasValidExtension(config: Config, path: string) returns (ok: bool)
    ensures ok <==> Ext(path) in config.FilePatterns
  {
    var extension := Ext(path);
    var i := 0;
    while i < |config.FilePatterns|
      invariant 0 <= i <= |config.FilePatterns|
      invariant extension !in config.FilePatterns[..i]
    {
      if extension == config.FilePatterns[i] {
        return true;
      }
      i := i + 1;
    }
    assert config.FilePatterns[..i] == config.FilePatterns;
    return false;
  }

  /** Under the default patterns, exactly the paths whose last element ends in
      `.html` qualify; a file with a further extension, or with none, does not. */
  lemma DefaultPatternsExamples(p: string)
    ensures Ext(p + ".html") in [".html"]
    ensures Ext(p + ".html.bak") !in [".html"]
    ensures Ext("templates/page") !in [".html"]
  {
    ExtOfSuffix(p, ".html");
    assert Ext(p + ".html.bak") == ".bak" by {
      assert p + ".html.bak" == (p + ".html") + ".bak";
      ExtOfSuffix(p + ".html", ".bak");
    }
    assert Ext("templates/page") == "" by {
      assert DotsBehindSeparator("templates/page", |"templates/page"|);
      ExtShape("templates/page");
    }
  }
}
