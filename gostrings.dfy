/** The parts of Go's standard `strings` package that the sorter relies on:
    `strings.Fields`, `strings.Split`, `strings.Join`, and Go's `<` on strings.
    A Dafny `char` stands for one byte of a Go string throughout the model. */
module GoStrings {

  /** `unicode.IsSpace` restricted to ASCII, as `strings.Fields` uses it. */
  predicate IsSpace(c: char) {
    c == ' ' || c == '\t' || c == '\n' || c == 11 as char || c == 12 as char || c == '\r'
  }

  predicate NoSpace(s: string) {
    forall i :: 0 <= i < |s| ==> !IsSpace(s[i])
  }

  predicate AllSpace(s: string) {
    forall i :: 0 <= i < |s| ==> IsSpace(s[i])
  }

  /** Every element is a non-empty run of non-space characters. */
  predicate AreWords(ts: seq<string>) {
    forall i :: 0 <= i < |ts| ==> |ts[i]| > 0 && NoSpace(ts[i])
  }

  /** Length of the leading run of non-space characters. */
  function WordLength(s: string): (n: nat)
    ensures n <= |s|
    ensures forall i :: 0 <= i < n ==> !IsSpace(s[i])
    ensures n < |s| ==> IsSpace(s[n])
  {
    if s == [] || IsSpace(s[0]) then 0 else 1 + WordLength(s[1..])
  }

  /** `strings.Fields`: the maximal runs of non-space characters, in order. */
  function Fields(s: string): (r: seq<string>)
    ensures AreWords(r)
    decreases |s|
  {
    if s == [] then []
    else if IsSpace(s[0]) then Fields(s[1..])
    else
      var n := WordLength(s);
      [s[..n]] + Fields(s[n..])
  }

  /** Every character of every string in `ts` occurs in `s`. */
  predicate CharsFrom(ts: seq<string>, s: string) {
    forall i, j :: 0 <= i < |ts| && 0 <= j < |ts[i]| ==> ts[i][j] in s
  }

  /** Every character of every field comes from the input. */
  lemma {:induction false} FieldsChars(s: string)
    ensures CharsFrom(Fields(s), s)
    decreases |s|
  {
    if s != [] && IsSpace(s[0]) {
      FieldsChars(s[1..]);
      var r := Fields(s[1..]);
      assert Fields(s) == r;
      forall i, j | 0 <= i < |r| && 0 <= j < |r[i]| ensures r[i][j] in s {
        assert r[i][j] in s[1..];
      }
    } else if s != [] {
      var n := WordLength(s);
      FieldsChars(s[n..]);
      var rest := Fields(s[n..]);
      var r := [s[..n]] + rest;
      assert Fields(s) == r;
      forall i, j | 0 <= i < |r| && 0 <= j < |r[i]| ensures r[i][j] in s {
        if i == 0 {
          assert s[..n][j] == s[j];
        } else {
          assert r[i] == rest[i - 1];
          assert rest[i - 1][j] in s[n..];
        }
      }
    }
  }

  /** `strings.Join`. */
  function Join(parts: seq<string>, sep: string): string {
    if |parts| == 0 then ""
    else if |parts| == 1 then parts[0]
    else parts[0] + sep + Join(parts[1..], sep)
  }

  /** Total number of characters in a sequence of strings. */
  function TotalLength(ts: seq<string>): nat {
    if ts == [] then 0 else |ts[0]| + TotalLength(ts[1..])
  }

  /** Index of the first occurrence of `c` in `s`. */
  function IndexOf(s: string, c: char): (i: nat)
    requires c in s
    ensures i < |s| && s[i] == c && c !in s[..i]
  {
    if s[0] == c then 0 else 1 + IndexOf(s[1..], c)
  }

  /** `strings.Split` with a one-character separator: never empty, no part holds the
      separator, and joining the parts back with it gives the input. */
  function Split(s: string, sep: char): (parts: seq<string>)
    ensures |parts| >= 1
    ensures forall i :: 0 <= i < |parts| ==> sep !in parts[i]
    ensures Join(parts, [sep]) == s
    decreases |s|
  {
    if sep !in s then [s]
    else
      var i := IndexOf(s, sep);
      var rest := Split(s[i + 1..], sep);
      assert s == s[..i] + [sep] + s[i + 1..];
      [s[..i]] + rest
  }

  /** Splitting at the first separator: the text before it, then the parts of the
      text after it. */
  lemma SplitAt(s: string, sep: char, i: nat)
    requires i < |s| && s[i] == sep && sep !in s[..i]
    ensures Split(s, sep) == [s[..i]] + Split(s[i + 1..], sep)
  {
  }

  /** `strings.HasPrefix`. */
  predicate HasPrefix(s: string, prefix: string) {
    |prefix| <= |s| && s[..|prefix|] == prefix
  }

  lemma HasPrefixTransitive(s: string, t: string, u: string)
    requires HasPrefix(s, t) && HasPrefix(t, u)
    ensures HasPrefix(s, u)
  {
    assert s[..|u|] == s[..|t|][..|u|];
  }

  /** Go's `<` on strings: byte-wise lexicographic order. */
  predicate StrLess(a: string, b: string) {
    if |a| == 0 then |b| > 0
    else if |b| == 0 then false
    else if a[0] != b[0] then a[0] < b[0]
    else StrLess(a[1..], b[1..])
  }

  lemma {:induction false} StrLessIrreflexive(a: string)
    ensures !StrLess(a, a)
  {
    if |a| > 0 { StrLessIrreflexive(a[1..]); }
  }

  lemma {:induction false} StrLessTransitive(a: string, b: string, c: string)
    requires StrLess(a, b) && StrLess(b, c)
    ensures StrLess(a, c)
  {
    if |a| > 0 && |b| > 0 && |c| > 0 && a[0] == b[0] && b[0] == c[0] {
      StrLessTransitive(a[1..], b[1..], c[1..]);
    }
  }

  lemma {:induction false} StrLessTotal(a: string, b: string)
    requires a != b
    ensures StrLess(a, b) || StrLess(b, a)
  {
    if |a| > 0 && |b| > 0 && a[0] == b[0] {
      assert a == [a[0]] + a[1..] && b == [b[0]] + b[1..];
      StrLessTotal(a[1..], b[1..]);
    }
  }

  /** Splitting the words back out of their single-space join gives the words:
      `Fields` undoes `Join(_, " ")`. */
  lemma {:induction false} FieldsOfJoin(ts: seq<string>)
    requires AreWords(ts)
    ensures Fields(Join(ts, " ")) == ts
    decreases |ts|
  {
    if |ts| == 1 {
      FieldsOfWord(ts[0], "");
      assert ts[0] + "" == ts[0];
      assert Fields("") == [];
    } else if |ts| > 1 {
      FieldsOfJoin(ts[1..]);
      var rest := Join(ts[1..], " ");
      assert Join(ts, " ") == ts[0] + (" " + rest);
      FieldsOfWord(ts[0], " " + rest);
      assert (" " + rest)[1..] == rest;
    }
  }

  /** Two words joined by a space are its two fields. */
  lemma FieldsOfTwo(a: string, b: string)
    requires AreWords([a, b])
    ensures Fields(a + " " + b) == [a, b]
  {
    assert Join([a, b], " ") == a + " " + b;
    FieldsOfJoin([a, b]);
  }

  /** A word followed by nothing or by a space is the first field. */
  lemma {:induction false} FieldsOfWord(w: string, rest: string)
    requires |w| > 0 && NoSpace(w)
    requires rest == [] || IsSpace(rest[0])
    ensures Fields(w + rest) == [w] + Fields(rest)
  {
    var s := w + rest;
    assert WordLength(s) == |w| by { WordLengthOfWord(w, rest); }
    assert s[..|w|] == w && s[|w|..] == rest;
  }

  lemma {:induction false} WordLengthOfWord(w: string, rest: string)
    requires NoSpace(w)
    requires rest == [] || IsSpace(rest[0])
    ensures WordLength(w + rest) == |w|
    decreases |w|
  {
    if |w| > 0 {
      assert (w + rest)[1..] == w[1..] + rest;
      WordLengthOfWord(w[1..], rest);
    }
  }

  /** `strings.Fields` finds nothing exactly when the string is all white space. */
  lemma {:induction false} FieldsEmptyIffAllSpace(s: string)
    ensures Fields(s) == [] <==> AllSpace(s)
    decreases |s|
  {
    if s != [] {
      FieldsEmptyIffAllSpace(s[1..]);
      if IsSpace(s[0]) {
        assert AllSpace(s) <==> AllSpace(s[1..]) by {
          if AllSpace(s[1..]) {
            forall i | 0 <= i < |s| ensures IsSpace(s[i]) { if i > 0 { assert s[i] == s[1..][i - 1]; } }
          }
        }
      }
    }
  }

  /** The fields together with one separator between each pair never take more room
      than the string they came from. */
  lemma {:induction false} FieldsLength(s: string)
    ensures TotalLength(Fields(s)) + |Fields(s)| <= |s| + 1
    decreases |s|
  {
    if s == [] {
    } else if IsSpace(s[0]) {
      FieldsLength(s[1..]);
    } else {
      var n := WordLength(s);
      var rest := s[n..];
      if rest == [] {
        assert Fields(s) == [s[..n]];
      } else {
        assert IsSpace(rest[0]);
        FieldsLength(rest[1..]);
        assert Fields(rest) == Fields(rest[1..]);
        assert Fields(s) == [s[..n]] + Fields(rest);
        assert Fields(s)[1..] == Fields(rest);
      }
    }
  }

  /** Length of a single-space join. */
  lemma {:induction false} JoinLength(ts: seq<string>)
    requires |ts| > 0
    ensures |Join(ts, " ")| == TotalLength(ts) + |ts| - 1
    decreases |ts|
  {
    if |ts| > 1 { JoinLength(ts[1..]); }
  }

  /** Every character of a join comes from a part or from the separator. */
  lemma {:induction false} JoinChars(ts: seq<string>, sep: string, c: char)
    requires c in Join(ts, sep)
    ensures c in sep || exists i :: 0 <= i < |ts| && c in ts[i]
    decreases |ts|
  {
    if |ts| > 1 {
      var rest := Join(ts[1..], sep);
      if c !in ts[0] && c !in sep {
        assert c in rest;
        JoinChars(ts[1..], sep, c);
        var i :| 0 <= i < |ts[1..]| && c in ts[1..][i];
        assert c in ts[i + 1];
      }
    }
  }

  /** Joining the parts from `n` on and then joining that with the parts before `n`
      gives the join of all parts. */
  lemma {:induction false} JoinAt(ps: seq<string>, n: nat, sep: string)
    requires n < |ps|
    ensures Join(ps[..n] + [Join(ps[n..], sep)], sep) == Join(ps, sep)
    decreases n
  {
    if n == 0 {
      assert ps[..0] + [Join(ps[0..], sep)] == [Join(ps, sep)];
      assert ps[0..] == ps;
    } else {
      var tail := ps[1..];
      JoinAt(tail, n - 1, sep);
      assert tail[n - 1..] == ps[n..];
      var joined := ps[..n] + [Join(ps[n..], sep)];
      assert joined[1..] == tail[..n - 1] + [Join(tail[n - 1..], sep)];
    }
  }
}
