/** `processFileContent`: every match of the attribute pattern
    `((?:NAME1|NAME2|...))(\s*=\s*)(["'`])(.*?)(["'`])`, built from the configured
    attribute names, has its fourth group replaced by the sorted class list.
    The pattern is modelled by a hand-written scanner that follows Go's
    leftmost-first matching: the leftmost position where the pattern matches wins,
    at that position the first name in the list that can match wins, greedy `\s*`
    takes every blank, and the lazy `.*?` takes the shortest content. */
module Extractor {
  import opened GoStrings
  import opened Orderer
  import opened Wrappers

  /** `\s` in Go's regular expressions: space, tab, newline, form feed, return. */
  predicate IsRegexSpace(c: char) {
    c == ' ' || c == '\t' || c == '\n' || c == 12 as char || c == '\r'
  }

  /** The three characters `["'`]` accepts. */
  predicate IsQuote(c: char) {
    c == '"' || c == '\'' || c == '`'
  }

  /** A character at which the lazy `.*?` stops: a quote ends it, a newline (which
      `.` does not match) defeats it. */
  predicate IsStop(c: char) {
    IsQuote(c) || c == '\n'
  }

  /** Neither a quote nor a newline anywhere. */
  predicate Plain(t: string) {
    forall k {:trigger IsStop(t[k])} :: 0 <= k < |t| ==> !IsStop(t[k])
  }

  /** The second group, `\s*=\s*`: one `=` and blanks around it. */
  predicate IsAssign(t: string) {
    exists k :: 0 <= k < |t| && t[k] == '=' && forall m {:trigger IsRegexSpace(t[m])} :: 0 <= m < |t| && m != k ==> IsRegexSpace(t[m])
  }

  /** The five groups of one match: attribute name, assignment, opening quote,
      class list, closing quote. */
  datatype Attr = Attr(Name: string, Assign: string, Open: char, Content: string, Close: char)

  /** The text a match covers. */
  function Text(a: Attr): string {
    a.Name + a.Assign + [a.Open] + a.Content + [a.Close]
  }

  /** The groups fit the pattern (the name is checked against the list separately).
      The content may hold quotes here; only the lazy choice rules them out. */
  predicate Fits(a: Attr) {
    IsAssign(a.Assign) && IsQuote(a.Open) && '\n' !in a.Content && IsQuote(a.Close)
  }

  /** `t` occurs in `s` starting at `i`. */
  predicate OccursAt(s: string, i: nat, t: string) {
    i + |t| <= |s| && s[i..i + |t|] == t
  }

  /** The groups of `a` stand one after another from `i`. */
  predicate GroupsOccur(s: string, i: nat, a: Attr) {
    var j := i + |a.Name|;
    var q := j + |a.Assign|;
    var e := q + 1 + |a.Content|;
    && e < |s| && OccursAt(s, i, a.Name) && OccursAt(s, j, a.Assign)
    && s[q] == a.Open && OccursAt(s, q + 1, a.Content) && s[e] == a.Close
  }

  /** The pattern, taking alternative `a.Name`, can match `a` at `i`: the groups
      fit and stand one after another there. */
  predicate MatchesAt(s: string, i: nat, a: Attr) {
    Fits(a) && GroupsOccur(s, i, a)
  }

  /** Some match of alternative `name` starts at `i`. */
  ghost predicate CanMatch(s: string, i: nat, name: string) {
    exists b: Attr :: b.Name == name && MatchesAt(s, i, b)
  }

  lemma OccursConcat(s: string, i: nat, x: string, y: string)
    ensures OccursAt(s, i, x + y) <==> OccursAt(s, i, x) && OccursAt(s, i + |x|, y)
  {
    if i + |x| + |y| <= |s| {
      assert s[i..i + |x + y|] == s[i..i + |x|] + s[i + |x|..i + |x| + |y|];
      if OccursAt(s, i, x + y) {
        assert s[i..i + |x|] == (x + y)[..|x|];
        assert s[i + |x|..i + |x| + |y|] == (x + y)[|x|..];
      }
    }
  }

  /** One character occurs where it stands. */
  lemma OccursChar(s: string, i: nat, c: char)
    ensures OccursAt(s, i, [c]) <==> i < |s| && s[i] == c
  {
    if i < |s| {
      assert s[i..i + 1] == [s[i]];
    }
  }

  /** A match's text occurs at `i` exactly when each group occurs in turn. */
  lemma OccursText(s: string, i: nat, a: Attr)
    ensures OccursAt(s, i, Text(a)) <==> GroupsOccur(s, i, a)
  {
    var q := i + |a.Name| + |a.Assign|;
    var c := q + 1 + |a.Content|;
    OccursConcat(s, i, a.Name + a.Assign + [a.Open] + a.Content, [a.Close]);
    OccursConcat(s, i, a.Name + a.Assign + [a.Open], a.Content);
    OccursConcat(s, i, a.Name + a.Assign, [a.Open]);
    OccursConcat(s, i, a.Name, a.Assign);
    OccursChar(s, q, a.Open);
    OccursChar(s, c, a.Close);
  }

  /** A match is exactly its text occurring with groups that fit. */
  lemma MatchesAtText(s: string, i: nat, a: Attr)
    ensures MatchesAt(s, i, a) <==> Fits(a) && OccursAt(s, i, Text(a))
  {
    OccursText(s, i, a);
  }

  /** A text that occurs at the start of an occurrence occurs in the outer string
      too. */
  lemma OccursWithin(s: string, i: nat, t: string, u: string)
    requires OccursAt(s, i, t) && OccursAt(t, 0, u)
    ensures OccursAt(s, i, u)
  {
    assert s[i..i + |u|] == s[i..i + |t|][..|u|];
  }

  /** The characters of an occurrence. */
  lemma OccursChars(s: string, i: nat, t: string)
    requires OccursAt(s, i, t)
    ensures forall m {:trigger s[m]} :: i <= m < i + |t| ==> s[m] == t[m - i]
  {
    forall m | i <= m < i + |t| ensures s[m] == t[m - i] {
      assert s[i..i + |t|][m - i] == s[m];
    }
  }

  /** Length of the run of `\s` characters from `j`: what greedy `\s*` takes. */
  function SpaceRun(s: string, j: nat): (n: nat)
    requires j <= |s|
    ensures j + n <= |s|
    ensures forall m {:trigger IsRegexSpace(s[m])} :: j <= m < j + n ==> IsRegexSpace(s[m])
    ensures j + n < |s| ==> !IsRegexSpace(s[j + n])
    decreases |s| - j
  {
    if j < |s| && IsRegexSpace(s[j]) then 1 + SpaceRun(s, j + 1) else 0
  }

  /** Index of the first quote or newline at or after `j`, or `|s|` if none. */
  function StopFrom(s: string, j: nat): (c: nat)
    requires j <= |s|
    ensures j <= c <= |s|
    ensures forall m {:trigger IsStop(s[m])} :: j <= m < c ==> !IsStop(s[m])
    ensures c < |s| ==> IsStop(s[c])
    decreases |s| - j
  {
    if j == |s| || IsStop(s[j]) then j else StopFrom(s, j + 1)
  }

  lemma {:induction false} SpaceRunExact(s: string, j: nat, n: nat)
    requires j + n < |s| && !IsRegexSpace(s[j + n])
    requires forall m {:trigger IsRegexSpace(s[m])} :: j <= m < j + n ==> IsRegexSpace(s[m])
    ensures SpaceRun(s, j) == n
    decreases n
  {
    if n > 0 {
      SpaceRunExact(s, j + 1, n - 1);
    }
  }

  lemma {:induction false} StopFromExact(s: string, j: nat, c: nat)
    requires j <= c < |s| && IsStop(s[c])
    requires forall m {:trigger IsStop(s[m])} :: j <= m < c ==> !IsStop(s[m])
    ensures StopFrom(s, j) == c
    decreases c - j
  {
    if j < c {
      StopFromExact(s, j + 1, c);
    }
  }

  lemma {:induction false} StopFromAtMost(s: string, j: nat, e: nat)
    requires j <= e < |s| && IsStop(s[e])
    ensures StopFrom(s, j) <= e
    decreases e - j
  {
    if j < e && !IsStop(s[j]) {
      StopFromAtMost(s, j + 1, e);
    }
  }

  /** `\s*=\s*` tried at `j`: where it ends, if it matches. The greedy runs take
      every blank, so this is the only place it can end before a non-blank. */
  function AssignEnd(s: string, j: nat): (r: Option<nat>)
    requires j <= |s|
    ensures r.Some? ==> j < r.value <= |s| && IsAssign(s[j..r.value])
    ensures r.Some? && r.value < |s| ==> !IsRegexSpace(s[r.value])
  {
    var w1 := SpaceRun(s, j);
    if j + w1 == |s| || s[j + w1] != '=' then None
    else
      var q := j + w1 + 1 + SpaceRun(s, j + w1 + 1);
      var t := s[j..q];
      assert t[w1] == '=';
      assert forall m :: 0 <= m < |t| && m != w1 ==> IsRegexSpace(t[m]) by {
        forall m | 0 <= m < |t| && m != w1 ensures IsRegexSpace(t[m]) {
          assert t[m] == s[j + m];
        }
      }
      Some(q)
  }

  /** An assignment that occurs at `j` and is followed by a non-blank is the one
      `AssignEnd` finds. */
  lemma AssignEndFinds(s: string, j: nat, t: string)
    requires OccursAt(s, j, t) && IsAssign(t) && j + |t| < |s| && !IsRegexSpace(s[j + |t|])
    ensures AssignEnd(s, j) == Some(j + |t|)
  {
    var k :| 0 <= k < |t| && t[k] == '=' && forall m {:trigger IsRegexSpace(t[m])} :: 0 <= m < |t| && m != k ==> IsRegexSpace(t[m]);
    OccursChars(s, j, t);
    SpaceRunExact(s, j, k);
    SpaceRunExact(s, j + k + 1, |t| - k - 1);
  }

  /** `(.*?)(["'`])` after the opening quote at `q`: the index of the closing
      quote, if a quote comes before any newline. */
  function ContentEnd(s: string, q: nat): (r: Option<nat>)
    requires q < |s|
    ensures r.Some? ==> q < r.value < |s| && IsQuote(s[r.value]) && Plain(s[q + 1..r.value])
  {
    var c := StopFrom(s, q + 1);
    if c == |s| || !IsQuote(s[c]) then None
    else
      var t := s[q + 1..c];
      assert Plain(t) by {
        forall m | 0 <= m < |t| ensures !IsStop(t[m]) {
          assert t[m] == s[q + 1 + m];
        }
      }
      Some(c)
  }

  /** If a content `t` with no newline is followed by a quote, the lazy group stops
      at that quote or earlier, and exactly there when `t` holds no quote. */
  lemma ContentEndFinds(s: string, q: nat, t: string)
    requires OccursAt(s, q + 1, t) && '\n' !in t
    requires q + 1 + |t| < |s| && IsQuote(s[q + 1 + |t|])
    ensures ContentEnd(s, q).Some? && ContentEnd(s, q).value <= q + 1 + |t|
    ensures Plain(t) ==> ContentEnd(s, q) == Some(q + 1 + |t|)
  {
    var e := q + 1 + |t|;
    OccursChars(s, q + 1, t);
    StopFromAtMost(s, q + 1, e);
    var c := StopFrom(s, q + 1);
    if c < e {
      assert s[c] == t[c - q - 1];
    }
    assert IsStop(s[c]) && s[c] != '\n';
    if Plain(t) {
      assert forall m :: q + 1 <= m < e ==> !IsStop(s[m]) by {
        forall m | q + 1 <= m < e ensures !IsStop(s[m]) {
          assert s[m] == t[m - q - 1];
        }
      }
      StopFromExact(s, q + 1, e);
    }
  }

  /** Alternative `name` of the pattern tried at `i`: the name, blanks, `=`,
      blanks, a quote, then the shortest run of non-newline characters that a quote
      follows. */
  function MatchName(s: string, i: nat, name: string): (r: Option<Attr>)
    requires i <= |s|
  {
    if !OccursAt(s, i, name) then None
    else
      var j := i + |name|;
      match AssignEnd(s, j)
      case None => None
      case Some(q) =>
        if q == |s| || !IsQuote(s[q]) then None
        else
          match ContentEnd(s, q)
          case None => None
          case Some(c) => Some(Attr(name, s[j..q], s[q], s[q + 1..c], s[c]))
  }

  /** What the scanner finds for `name` is a match of that alternative, with no
      quote in its content. */
  lemma MatchNameSound(s: string, i: nat, name: string)
    requires i <= |s|
    ensures var r := MatchName(s, i, name);
            r.Some? ==> r.value.Name == name && MatchesAt(s, i, r.value) && Plain(r.value.Content)
  {
    var r := MatchName(s, i, name);
    if r.Some? {
      var j := i + |name|;
      assert OccursAt(s, i, name) && AssignEnd(s, j).Some?;
      var q := AssignEnd(s, j).value;
      assert q < |s| && IsQuote(s[q]) && ContentEnd(s, q).Some?;
      var c := ContentEnd(s, q).value;
      assert i + |name| < q < c < |s|;
      assert IsAssign(s[i + |name|..q]);
      assert IsQuote(s[c]);
      assert Plain(s[q + 1..c]);
      assert r.value.Name == name;
      assert r.value == Attr(name, s[i + |name|..q], s[q], s[q + 1..c], s[c]);
      GroupsFit(s, i, r.value, q, c);
    }
  }

  /** The groups found at `i`, with the assignment ending at `q` and the closing
      quote at `c`, make a match of the pattern. */
  lemma GroupsFit(s: string, i: nat, a: Attr, q: nat, c: nat)
    requires OccursAt(s, i, a.Name) && i + |a.Name| < q < c < |s|
    requires IsAssign(s[i + |a.Name|..q]) && IsQuote(s[q]) && IsQuote(s[c]) && Plain(s[q + 1..c])
    requires a == Attr(a.Name, s[i + |a.Name|..q], s[q], s[q + 1..c], s[c])
    ensures MatchesAt(s, i, a) && Plain(a.Content)
  {
    assert forall m :: 0 <= m < |a.Content| ==> !IsStop(a.Content[m]);
  }

  /** The scanner's answer once the assignment is known to end at `q` and the
      closing quote to stand at `c`. */
  lemma MatchNameIs(s: string, i: nat, a: Attr, q: nat, c: nat)
    requires OccursAt(s, i, a.Name) && AssignEnd(s, i + |a.Name|) == Some(q)
    requires q < |s| && IsQuote(s[q]) && ContentEnd(s, q) == Some(c)
    requires a.Assign == s[i + |a.Name|..q] && a.Open == s[q] && a.Content == s[q + 1..c] && a.Close == s[c]
    ensures MatchName(s, i, a.Name) == Some(a)
  {
  }

  /** Once the assignment ends at `q` before a quote and the lazy group stops at
      a quote within `n` characters, the scanner finds the assignment and quote
      standing there and a content of at most `n` characters. */
  lemma MatchNameWithin(s: string, i: nat, name: string, q: nat, n: nat)
    requires OccursAt(s, i, name) && AssignEnd(s, i + |name|) == Some(q)
    requires q < |s| && IsQuote(s[q])
    requires ContentEnd(s, q).Some? && ContentEnd(s, q).value <= q + 1 + n
    ensures MatchName(s, i, name).Some?
    ensures var a := MatchName(s, i, name).value;
            a.Assign == s[i + |name|..q] && a.Open == s[q] && |a.Content| <= n
  {
  }

  /** Whatever match of alternative `b.Name` starts at `i`, the scanner finds one
      with the same assignment and opening quote and content no longer than `b`'s. */
  lemma MatchNameFinds(s: string, i: nat, b: Attr)
    requires MatchesAt(s, i, b)
    ensures MatchName(s, i, b.Name).Some?
    ensures var a := MatchName(s, i, b.Name).value;
            a.Assign == b.Assign && a.Open == b.Open && |a.Content| <= |b.Content|
  {
    var j := i + |b.Name|;
    var q := j + |b.Assign|;
    assert GroupsOccur(s, i, b);
    AssignEndFinds(s, j, b.Assign);
    ContentEndFinds(s, q, b.Content);
    MatchNameWithin(s, i, b.Name, q, |b.Content|);
  }

  /** A match whose content holds no quote is exactly what the scanner finds. */
  lemma MatchNameFindsPlain(s: string, i: nat, b: Attr)
    requires MatchesAt(s, i, b) && Plain(b.Content)
    ensures MatchName(s, i, b.Name) == Some(b)
  {
    var j := i + |b.Name|;
    var q := j + |b.Assign|;
    var e := q + 1 + |b.Content|;
    assert GroupsOccur(s, i, b);
    assert b.Assign == s[j..q] && b.Content == s[q + 1..e] && b.Open == s[q] && b.Close == s[e];
    AssignEndFinds(s, j, b.Assign);
    ContentEndFinds(s, q, b.Content);
    MatchNameIs(s, i, b, q, e);
  }

  /** The scanner succeeds for alternative `name` exactly when the pattern can
      match with that alternative. */
  lemma MatchNameIffCanMatch(s: string, i: nat, name: string)
    requires i <= |s|
    ensures MatchName(s, i, name).Some? <==> CanMatch(s, i, name)
  {
    MatchNameSound(s, i, name);
    if CanMatch(s, i, name) {
      var b: Attr :| b.Name == name && MatchesAt(s, i, b);
      MatchNameFinds(s, i, b);
    }
  }

  /** The pattern's alternatives tried at `i` in the order the names are listed;
      the first that matches wins. */
  function MatchAt(s: string, i: nat, names: seq<string>): (r: Option<Attr>)
    requires i <= |s|
    ensures r.Some? ==> r.value.Name in names && MatchesAt(s, i, r.value) && Plain(r.value.Content)
  {
    if names == [] then None
    else
      match MatchName(s, i, names[0])
      case Some(a) =>
        MatchNameSound(s, i, names[0]);
        Some(a)
      case None => MatchAt(s, i, names[1..])
  }

  /** Go's leftmost-first rule at one position: nothing is found exactly when no
      alternative can match there. */
  lemma {:induction false} MatchAtNoneIff(s: string, i: nat, names: seq<string>)
    requires i <= |s|
    ensures MatchAt(s, i, names).None? <==> forall n :: 0 <= n < |names| ==> !CanMatch(s, i, names[n])
    decreases |names|
  {
    if names != [] {
      MatchNameIffCanMatch(s, i, names[0]);
      if MatchName(s, i, names[0]).None? {
        MatchAtNoneIff(s, i, names[1..]);
        assert MatchAt(s, i, names) == MatchAt(s, i, names[1..]);
        assert forall n :: 1 <= n < |names| ==> names[n] == names[1..][n - 1];
      } else {
        assert MatchAt(s, i, names).Some?;
      }
    }
  }

  /** Go's leftmost-first rule at one position: the alternative taken is the
      first listed one that can match, the `k`-th. */
  lemma {:induction false} MatchAtFirstAlternative(s: string, i: nat, names: seq<string>) returns (k: nat)
    requires i <= |s| && MatchAt(s, i, names).Some?
    ensures k < |names| && names[k] == MatchAt(s, i, names).value.Name
    ensures forall m :: 0 <= m < k ==> !CanMatch(s, i, names[m])
    decreases |names|
  {
    k := 0;
    MatchNameSound(s, i, names[0]);
    if MatchName(s, i, names[0]).None? {
      MatchNameIffCanMatch(s, i, names[0]);
      assert MatchAt(s, i, names) == MatchAt(s, i, names[1..]);
      var k' := MatchAtFirstAlternative(s, i, names[1..]);
      assert forall n :: 1 <= n < |names| ==> names[n] == names[1..][n - 1];
      k := k' + 1;
    } else {
      assert MatchAt(s, i, names) == MatchName(s, i, names[0]);
    }
  }

  /** Go's leftmost-first rule at one position, second half: the content of the
      match taken is the shortest its alternative allows (the group is lazy). */
  lemma {:induction false} MatchAtShortestContent(s: string, i: nat, names: seq<string>)
    requires i <= |s|
    ensures MatchAt(s, i, names).Some? ==>
              forall b: Attr :: b.Name == MatchAt(s, i, names).value.Name && MatchesAt(s, i, b) ==>
                            |MatchAt(s, i, names).value.Content| <= |b.Content|
    decreases |names|
  {
    if names != [] {
      if MatchName(s, i, names[0]).None? {
        MatchAtShortestContent(s, i, names[1..]);
      } else {
        var r := MatchAt(s, i, names);
        forall b: Attr | b.Name == r.value.Name && MatchesAt(s, i, b) ensures |r.value.Content| <= |b.Content| {
          MatchNameFinds(s, i, b);
        }
      }
    }
  }

  /** The alternatives the pattern is built from: the names joined with `|`. An
      empty list joins to the empty alternative, which matches before any `=`. */
  function Alternatives(classAttributes: seq<string>): (names: seq<string>)
    ensures |names| >= 1
    ensures forall n :: n in names <==> n in classAttributes || (classAttributes == [] && n == "")
    ensures classAttributes != [] ==> names == classAttributes
  {
    if classAttributes == [] then [""] else classAttributes
  }

  /** A stretch of the input, with the index where it starts: one character
      outside any match, or a whole match. */
  datatype Piece = Gap(At: nat, Char: char) | Hit(At: nat, Match: Attr)

  function RenderPiece(p: Piece): string {
    match p
    case Gap(_, c) => [c]
    case Hit(_, a) => Text(a)
  }

  /** The pieces written out one after another. */
  function Render(ps: seq<Piece>): string {
    if ps == [] then "" else RenderPiece(ps[0]) + Render(ps[1..])
  }

  /** An occurrence at `i` is what the rest of the text from `i` starts with. */
  lemma OccursSplit(s: string, i: nat, t: string)
    requires OccursAt(s, i, t)
    ensures s[i..] == t + s[i + |t|..]
  {
    assert s[i..] == s[i..i + |t|] + s[i + |t|..];
  }

  /** What the pattern gives at `p`'s own index is `p`: a gap holding the
      character there when no alternative matches, otherwise a hit holding the
      match the pattern picks. The index fixes the piece. */
  predicate Stepped(s: string, names: seq<string>, p: Piece) {
    && p.At < |s|
    && match p
       case Gap(i, c) => c == s[i] && MatchAt(s, i, names).None?
       case Hit(i, a) => MatchAt(s, i, names) == Some(a)
  }

  /** One step of the scan at `i`: the match the pattern picks there, or else the
      character there. */
  function Step(s: string, names: seq<string>, i: nat): (p: Piece)
    requires i < |s|
    ensures p.At == i && Stepped(s, names, p)
    ensures OccursAt(s, i, RenderPiece(p)) && |RenderPiece(p)| > 0
  {
    match MatchAt(s, i, names)
    case None =>
      assert s[i..i + 1] == [s[i]];
      Gap(i, s[i])
    case Some(a) =>
      MatchesAtText(s, i, a);
      Hit(i, a)
  }

  /** `q` starts where `p` ends. */
  predicate Follows(p: Piece, q: Piece) {
    q.At == p.At + |RenderPiece(p)|
  }

  /** Putting a stepped piece that `rest` follows in front of `rest` keeps every
      piece stepped and each one following the one before. */
  lemma ConsPieces(s: string, names: seq<string>, p: Piece, rest: seq<Piece>)
    requires Stepped(s, names, p) && (|rest| > 0 ==> Follows(p, rest[0]))
    requires forall k :: 0 <= k < |rest| ==> Stepped(s, names, rest[k])
    requires forall j, k {:trigger rest[j], rest[k]} :: 0 <= j && k == j + 1 && k < |rest| ==> Follows(rest[j], rest[k])
    ensures var ps := [p] + rest;
            && (forall k :: 0 <= k < |ps| ==> Stepped(s, names, ps[k]))
            && (forall j, k {:trigger ps[j], ps[k]} :: 0 <= j && k == j + 1 && k < |ps| ==> Follows(ps[j], ps[k]))
  {
    var ps := [p] + rest;
    forall k | 0 <= k < |ps| ensures Stepped(s, names, ps[k]) {
      if k > 0 {
        assert ps[k] == rest[k - 1];
      }
    }
    forall j, k | 0 <= j && k == j + 1 && k < |ps| ensures Follows(ps[j], ps[k]) {
      if j > 0 {
        assert ps[j] == rest[j - 1] && ps[k] == rest[k - 1];
      }
    }
  }

  /** The pattern's successive non-overlapping matches from `i` on, with the
      characters between them. Writing the pieces out gives back the scanned text;
      the first piece starts at `i` and each next one where the one before ends;
      and each piece is what the pattern gives at its own index. */
  function Scan(s: string, names: seq<string>, i: nat): (ps: seq<Piece>)
    requires i <= |s|
    ensures Render(ps) == s[i..]
    ensures |ps| > 0 ==> ps[0].At == i
    ensures forall k :: 0 <= k < |ps| ==> Stepped(s, names, ps[k])
    ensures forall j, k {:trigger ps[j], ps[k]} :: 0 <= j && k == j + 1 && k < |ps| ==> Follows(ps[j], ps[k])
    decreases |s| - i
  {
    if i == |s| then []
    else
      var p := Step(s, names, i);
      var rest := Scan(s, names, i + |RenderPiece(p)|);
      OccursSplit(s, i, RenderPiece(p));
      ConsPieces(s, names, p, rest);
      var ps := [p] + rest;
      assert ps[0] == p && ps[1..] == rest;
      assert Render(ps) == RenderPiece(p) + Render(rest);
      ps
  }

  /** For the `FindSubmatch` call on a match's own text: the pattern, run on that
      text alone, finds the same match at the same place. */
  lemma {:induction false} MatchAtOnPrefix(s: string, i: nat, t: string, names: seq<string>)
    requires i <= |s| && OccursAt(s, i, t)
    requires MatchAt(s, i, names).Some? && OccursAt(t, 0, Text(MatchAt(s, i, names).value))
    ensures MatchAt(t, 0, names) == MatchAt(s, i, names)
    decreases |names|
  {
    var a := MatchAt(s, i, names).value;
    match MatchName(s, i, names[0])
    case Some(x) =>
      MatchesAtText(t, 0, a);
      MatchNameFindsPlain(t, 0, a);
    case None =>
      MatchNameSound(t, 0, names[0]);
      if MatchName(t, 0, names[0]).Some? {
        var b := MatchName(t, 0, names[0]).value;
        MatchesAtText(t, 0, b);
        OccursWithin(s, i, t, Text(b));
        MatchesAtText(s, i, b);
        MatchNameFinds(s, i, b);
        assert false;
      }
      MatchAtOnPrefix(s, i, t, names[1..]);
  }

  /** `FindSubmatch` on the text of a match found by the scan: the pattern finds
      that match again, covering the whole text, so the groups the closure reads
      are the groups the scan found. */
  lemma RematchFindsSameGroups(s: string, i: nat, names: seq<string>)
    requires i <= |s| && MatchAt(s, i, names).Some?
    ensures var a := MatchAt(s, i, names).value;
            Scan(Text(a), names, 0) == [Hit(0, a)]
  {
    var a := MatchAt(s, i, names).value;
    var t := Text(a);
    assert OccursAt(t, 0, t);
    MatchesAtText(s, i, a);
    MatchAtOnPrefix(s, i, t, names);
    assert Step(t, names, 0) == Hit(0, a);
    assert Scan(t, names, |t|) == [];
  }

  /** Same name, assignment and quotes. */
  predicate SameFrame(a: Attr, b: Attr) {
    a.Name == b.Name && a.Assign == b.Assign && a.Open == b.Open && a.Close == b.Close
  }

  /** The closure given to `ReplaceAllFunc`, on one piece: a match is written back
      with the same name, assignment and quotes and with its class list sorted; a
      character outside every match is kept. */
  function RewritePiece(variantOrder: map<string, int>, classOrder: seq<string>, p: Piece): (r: Piece)
    ensures r.At == p.At
    ensures p.Gap? ==> r == p
    ensures p.Hit? ==> r.Hit? && SameFrame(p.Match, r.Match)
    ensures p.Hit? ==> r.Match.Content == SortedClassString(variantOrder, classOrder, p.Match.Content)
  {
    match p
    case Gap(_, _) => p
    case Hit(at, a) => Hit(at, a.(Content := SortedClassString(variantOrder, classOrder, a.Content)))
  }

  /** The closure applied to every piece. */
  function Rewrite(variantOrder: map<string, int>, classOrder: seq<string>, ps: seq<Piece>): seq<Piece> {
    seq(|ps|, k requires 0 <= k < |ps| => RewritePiece(variantOrder, classOrder, ps[k]))
  }

  /** Every character of a token list joined back with spaces is a space or a
      character of the text the tokens came from. */
  lemma TokensFromInput(r: string, s: string)
    requires r == Join(Fields(r), " ")
    requires forall t :: t in Fields(r) ==> t in Fields(s)
    ensures forall c :: c in r ==> c == ' ' || c in s
  {
    FieldsChars(s);
    forall c | c in r ensures c == ' ' || c in s {
      JoinChars(Fields(r), " ", c);
      if c != ' ' {
        var n :| 0 <= n < |Fields(r)| && c in Fields(r)[n];
        var w := Fields(r)[n];
        assert w in Fields(s);
        var n' :| 0 <= n' < |Fields(s)| && Fields(s)[n'] == w;
        var m :| 0 <= m < |w| && w[m] == c;
        assert Fields(s)[n'][m] in s;
      }
    }
  }

  /** A sorted class list holds no character that was not in the input, besides
      the single spaces between tokens; in particular no quote and no newline. */
  lemma SortedContentPlain(variantOrder: map<string, int>, classOrder: seq<string>, content: string)
    requires Plain(content)
    ensures Plain(SortedClassString(variantOrder, classOrder, content))
  {
    var r := SortedClassString(variantOrder, classOrder, content);
    SortedClassStringTokens(variantOrder, classOrder, content);
    TokensFromInput(r, content);
    PlainFromChars(r, content);
  }

  /** A text made of spaces and characters of a quote-free, newline-free text is
      quote-free and newline-free. */
  lemma PlainFromChars(r: string, s: string)
    requires Plain(s)
    requires forall c :: c in r ==> c == ' ' || c in s
    ensures Plain(r)
  {
    forall k | 0 <= k < |r| ensures !IsStop(r[k]) {
      var c := r[k];
      assert c in r;
      if c != ' ' {
        var m :| 0 <= m < |s| && s[m] == c;
        assert !IsStop(s[m]);
      }
    }
  }

  /** Two matches with the same frame and quote-free contents, each followed by
      some text, spell the same string only if they are the same match followed by
      the same text: the closing quote marks where each content ends. */
  lemma HitTextsAgree(a: Attr, b: Attr, x: string, y: string)
    requires SameFrame(a, b) && IsQuote(a.Close) && Plain(a.Content) && Plain(b.Content)
    requires Text(a) + x == Text(b) + y
    ensures a == b && x == y
  {
    var front := a.Name + a.Assign + [a.Open];
    var u := a.Content + [a.Close] + x;
    var v := b.Content + [b.Close] + y;
    assert Text(a) + x == front + u;
    assert Text(b) + y == front + v;
    assert u == (Text(a) + x)[|front|..];
    assert v == (Text(b) + y)[|front|..];
    var n := |a.Content|;
    var m := |b.Content|;
    assert n < m ==> u[n] == a.Close && v[n] == b.Content[n] && !IsStop(b.Content[n]);
    assert m < n ==> u[m] == a.Content[m] && v[m] == b.Close && !IsStop(a.Content[m]);
    if n != m {
      assert false;
    }
    assert a.Content == u[..n] && b.Content == v[..n];
    assert x == u[n + 1..] && y == v[n + 1..];
  }

  /** Piece `q` stands where piece `p` stood, changed at most in a quote-free
      content. */
  predicate Corresponds(p: Piece, q: Piece) {
    && q.At == p.At
    && (p.Gap? ==> q == p)
    && (p.Hit? ==> q.Hit? && SameFrame(p.Match, q.Match) && IsQuote(p.Match.Close)
                   && Plain(p.Match.Content) && Plain(q.Match.Content))
  }

  /** Corresponding pieces spell the same text exactly when they are the same. */
  lemma {:induction false} RenderEqualIff(ps: seq<Piece>, qs: seq<Piece>)
    requires |ps| == |qs|
    requires forall k :: 0 <= k < |ps| ==> Corresponds(ps[k], qs[k])
    ensures Render(ps) == Render(qs) <==> ps == qs
    decreases |ps|
  {
    if ps != [] && Render(ps) == Render(qs) {
      var x := Render(ps[1..]);
      var y := Render(qs[1..]);
      assert Corresponds(ps[0], qs[0]);
      if ps[0].Hit? {
        HitTextsAgree(ps[0].Match, qs[0].Match, x, y);
      } else {
        assert x == Render(ps)[1..];
        assert y == Render(qs)[1..];
      }
      assert forall k :: 0 <= k < |ps[1..]| ==> Corresponds(ps[1..][k], qs[1..][k]) by {
        forall k | 0 <= k < |ps[1..]| ensures Corresponds(ps[1..][k], qs[1..][k]) {
          assert Corresponds(ps[k + 1], qs[k + 1]);
        }
      }
      RenderEqualIff(ps[1..], qs[1..]);
      assert ps == [ps[0]] + ps[1..];
      assert qs == [qs[0]] + qs[1..];
    }
  }

  /** Every match among the pieces ends in a quote and holds no quote or newline. */
  predicate HitsPlain(ps: seq<Piece>) {
    forall k :: 0 <= k < |ps| && ps[k].Hit? ==> IsQuote(ps[k].Match.Close) && Plain(ps[k].Match.Content)
  }

  /** Every matched class list among the pieces is already in sorted form. */
  predicate AllSorted(variantOrder: map<string, int>, classOrder: seq<string>, ps: seq<Piece>) {
    forall k :: 0 <= k < |ps| && ps[k].Hit? ==>
      SortedClassString(variantOrder, classOrder, ps[k].Match.Content) == ps[k].Match.Content
  }

  /** Rewriting leaves the text as it was exactly when every matched class list is
      already in sorted form. */
  lemma RewriteUnchangedIff(variantOrder: map<string, int>, classOrder: seq<string>, ps: seq<Piece>)
    requires HitsPlain(ps)
    ensures Render(Rewrite(variantOrder, classOrder, ps)) == Render(ps) <==> AllSorted(variantOrder, classOrder, ps)
  {
    var out := Rewrite(variantOrder, classOrder, ps);
    forall k | 0 <= k < |ps| ensures Corresponds(ps[k], out[k]) {
      if ps[k].Hit? {
        SortedContentPlain(variantOrder, classOrder, ps[k].Match.Content);
      }
    }
    RenderEqualIff(ps, out);
    if AllSorted(variantOrder, classOrder, ps) {
      assert out == ps by {
        forall k | 0 <= k < |ps| ensures out[k] == ps[k] {
          if ps[k].Hit? {
            assert out[k].Match == ps[k].Match;
          }
        }
      }
    }
  }

  /** Every match the scan finds ends in a quote and holds no quote or newline. */
  lemma ScanHitsPlain(s: string, names: seq<string>, i: nat)
    requires i <= |s|
    ensures HitsPlain(Scan(s, names, i))
  {
    var ps := Scan(s, names, i);
    forall k | 0 <= k < |ps| && ps[k].Hit?
      ensures IsQuote(ps[k].Match.Close) && Plain(ps[k].Match.Content)
    {
      assert Stepped(s, names, ps[k]);
    }
  }

  /** `processFileContent`: scan the file for the attribute pattern and write each
      match back with its class list sorted. The file comes back unchanged exactly
      when every matched class list is already in sorted form. */
  function ProcessFileContent(variantOrder: map<string, int>, classOrder: seq<string>, classAttributes: seq<string>, content: string): (r: string)
    ensures r == content <==> AllSorted(variantOrder, classOrder, Scan(content, Alternatives(classAttributes), 0))
  {
    var names := Alternatives(classAttributes);
    var ps := Scan(content, names, 0);
    ScanHitsPlain(content, names, 0);
    RewriteUnchangedIff(variantOrder, classOrder, ps);
    assert Render(ps) == content by {
      assert content[0..] == content;
    }
    Render(Rewrite(variantOrder, classOrder, ps))
  }

  /** The opening and closing quotes are matched independently: `class="x'` is
      one match, with content `x`. */
  lemma MixedQuotesMatch()
    ensures Scan("class=\"x'", ["class"], 0) == [Hit(0, Attr("class", "=", '"', "x", '\''))]
  {
    var s := "class=\"x'";
    var a := Attr("class", "=", '"', "x", '\'');
    assert Text(a) == s;
    assert IsAssign("=") by {
      assert "="[0] == '=';
    }
    assert OccursAt(s, 0, Text(a));
    MatchesAtText(s, 0, a);
    MatchNameFindsPlain(s, 0, a);
    assert MatchAt(s, 0, ["class"]) == Some(a);
  }
}
