/** The `${`-aware branch of `sortTWClassString`, as written. When the class list
    contains `${`, the function splits it around every `${...}` and calls itself on
    each piece, then discards what it built and falls through to the plain field
    sort. The recursion is modelled with a fuel bound: `None` means the call has not
    returned within that depth. */
module Template {
  import opened GoStrings
  import opened Orderer
  import opened Classifier
  import opened Config
  import opened Wrappers

  /** `${` starts at `p`. */
  predicate OpensAt(s: string, p: int) {
    0 <= p && p + 1 < |s| && s[p] == '$' && s[p + 1] == '{'
  }

  /** `strings.Contains(s, "${")`. */
  predicate HasTemplateOpen(s: string) {
    exists p :: 0 <= p < |s| && OpensAt(s, p)
  }

  /** A `}` comes somewhere after the `${` at `p`. */
  predicate ClosedAfter(s: string, p: int) {
    exists j :: 0 <= j < |s| && p + 2 <= j && s[j] == '}'
  }

  /** A `${` with no `}` anywhere after it. */
  predicate HasUnclosedTemplate(s: string) {
    exists p :: 0 <= p < |s| && OpensAt(s, p) && !ClosedAfter(s, p)
  }

  /** The pattern `\$\{[^}]*\}` matches at `p`: a `${` there, and a `}` after it. */
  predicate MatchesAt(s: string, p: int) {
    OpensAt(s, p) && ClosedAfter(s, p)
  }

  /** End of the match at `p`: just past the first `}` after the `${`. */
  function MatchEnd(s: string, p: int): (e: nat)
    requires MatchesAt(s, p)
    ensures p + 2 < e <= |s| && s[e - 1] == '}'
    ensures forall q :: p + 2 <= q < e - 1 ==> s[q] != '}'
    decreases |s| - p
  {
    CloseFrom(s, p + 2) + 1
  }

  /** Index of the first `}` at or after `i`. */
  function CloseFrom(s: string, i: nat): (j: nat)
    requires exists j :: i <= j < |s| && s[j] == '}'
    ensures i <= j < |s| && s[j] == '}'
    ensures forall q :: i <= q < j ==> s[q] != '}'
    decreases |s| - i
  {
    if s[i] == '}' then i else CloseFrom(s, i + 1)
  }

  /** The leftmost match at or after `from`. */
  function FirstMatch(s: string, from: nat): (r: Option<nat>)
    requires from <= |s|
    ensures r.Some? ==> from <= r.value < |s| && MatchesAt(s, r.value)
    ensures r.Some? ==> forall q :: from <= q < r.value ==> !MatchesAt(s, q)
    ensures r.None? ==> forall q :: from <= q < |s| ==> !MatchesAt(s, q)
    decreases |s| - from
  {
    if from == |s| then None
    else if MatchesAt(s, from) then Some(from)
    else FirstMatch(s, from + 1)
  }

  /** `templateLiteralSplitRegex.Split(s, -1)`: the pieces around the matches,
      one more piece than there are matches. */
  function TemplateParts(s: string): (parts: seq<string>)
    ensures |parts| >= 1
    decreases |s|
  {
    match FirstMatch(s, 0)
    case None => [s]
    case Some(p) => [s[..p]] + TemplateParts(s[MatchEnd(s, p)..])
  }

  /** `sortTWClassString` as written, with at most `fuel` nested calls. */
  function SortAsWritten(variantOrder: map<string, int>, classOrder: seq<string>, s: string, fuel: nat): Option<string>
    decreases fuel, 0
  {
    if fuel == 0 then None
    else if HasTemplateOpen(s) && !PiecesReturn(variantOrder, classOrder, s, fuel - 1) then None
    else Some(SortedClassString(variantOrder, classOrder, s))
  }

  /** Whenever the call returns, it returns the plain field sort: the pieces'
      results are thrown away. */
  lemma SortAsWrittenIsPlainSort(variantOrder: map<string, int>, classOrder: seq<string>, s: string, fuel: nat)
    ensures var r := SortAsWritten(variantOrder, classOrder, s, fuel);
            r.Some? ==> r.value == SortedClassString(variantOrder, classOrder, s)
  {
  }

  /** Every piece of `s` gets an answer within `fuel` nested calls. */
  predicate PiecesReturn(variantOrder: map<string, int>, classOrder: seq<string>, s: string, fuel: nat)
    decreases fuel, 1
  {
    forall part :: part in TemplateParts(s) ==> SortAsWritten(variantOrder, classOrder, part, fuel).Some?
  }

  /** Shifting past the first `e` characters keeps `${` openings and whether a `}`
      follows them. */
  lemma ShiftOpening(s: string, e: nat, q: nat)
    requires e <= |s|
    ensures OpensAt(s[e..], q) <==> OpensAt(s, q + e)
    ensures ClosedAfter(s[e..], q) <==> ClosedAfter(s, q + e)
  {
    var rest := s[e..];
    if ClosedAfter(s, q + e) {
      var j :| 0 <= j < |s| && q + e + 2 <= j && s[j] == '}';
      assert rest[j - e] == '}';
    }
    if ClosedAfter(rest, q) {
      var j :| 0 <= j < |rest| && q + 2 <= j && rest[j] == '}';
      assert s[j + e] == '}';
    }
  }

  /** An unclosed `${` lies wholly after any match. */
  lemma UnclosedAfterMatch(s: string, p: int, q: int)
    requires MatchesAt(s, p)
    requires OpensAt(s, q) && !ClosedAfter(s, q)
    ensures q >= MatchEnd(s, p)
  {
  }

  /** A string with an unclosed `${` has a piece with an unclosed `${`. */
  lemma {:induction false} UnclosedPiece(s: string) returns (part: string)
    requires HasUnclosedTemplate(s)
    ensures HasTemplateOpen(s)
    ensures part in TemplateParts(s) && HasUnclosedTemplate(part)
    decreases |s|
  {
    match FirstMatch(s, 0)
    case None =>
      assert TemplateParts(s) == [s];
      part := s;
    case Some(p) =>
      var e := MatchEnd(s, p);
      var rest := s[e..];
      var q :| 0 <= q < |s| && OpensAt(s, q) && !ClosedAfter(s, q);
      UnclosedAfterMatch(s, p, q);
      ShiftOpening(s, e, q - e);
      assert HasUnclosedTemplate(rest) by {
        assert 0 <= q - e < |rest| && OpensAt(rest, q - e) && !ClosedAfter(rest, q - e);
      }
      part := UnclosedPiece(rest);
      assert TemplateParts(s) == [s[..p]] + TemplateParts(rest);
      assert part in TemplateParts(s);
  }

  /** A `${` before a match is closed by that match's `}` at the latest. */
  lemma HeadOpeningsMatch(s: string, p: int)
    ensures MatchesAt(s, p) ==> forall q :: 0 <= q < p && OpensAt(s[..p], q) ==> MatchesAt(s, q)
  {
    if MatchesAt(s, p) {
      var e := MatchEnd(s, p);
      forall q | 0 <= q < p && OpensAt(s[..p], q) ensures MatchesAt(s, q) {
        assert OpensAt(s, q) && s[e - 1] == '}';
      }
    }
  }

  /** Without an unclosed `${`, no piece contains `${` at all. */
  lemma {:induction false} ClosedPieces(s: string)
    requires !HasUnclosedTemplate(s)
    ensures forall part :: part in TemplateParts(s) ==> !HasTemplateOpen(part)
    decreases |s|
  {
    match FirstMatch(s, 0)
    case None =>
      assert TemplateParts(s) == [s];
      assert forall q :: 0 <= q < |s| && OpensAt(s, q) ==> MatchesAt(s, q);
    case Some(p) =>
      var e := MatchEnd(s, p);
      var rest := s[e..];
      var head := s[..p];
      HeadOpeningsMatch(s, p);
      if HasUnclosedTemplate(rest) {
        var q :| 0 <= q < |rest| && OpensAt(rest, q) && !ClosedAfter(rest, q);
        ShiftOpening(s, e, q);
      }
      ClosedPieces(rest);
      assert TemplateParts(s) == [head] + TemplateParts(rest);
  }

  /** A class list with an unclosed `${` never gets an answer, however deep the
      stack: the recursion reaches a piece that splits into itself. */
  lemma {:induction false} UnclosedTemplateDiverges(variantOrder: map<string, int>, classOrder: seq<string>, s: string, fuel: nat)
    requires HasUnclosedTemplate(s)
    ensures SortAsWritten(variantOrder, classOrder, s, fuel) == None
    decreases fuel
  {
    if fuel > 0 {
      var part := UnclosedPiece(s);
      UnclosedTemplateDiverges(variantOrder, classOrder, part, fuel - 1);
      StuckPiece(variantOrder, classOrder, s, part, fuel);
    }
  }

  /** A call whose class list holds `${` does not return when one of its pieces'
      calls does not. */
  lemma StuckPiece(variantOrder: map<string, int>, classOrder: seq<string>, s: string, part: string, fuel: nat)
    requires fuel > 0 && HasTemplateOpen(s) && part in TemplateParts(s)
    requires SortAsWritten(variantOrder, classOrder, part, fuel - 1) == None
    ensures SortAsWritten(variantOrder, classOrder, s, fuel) == None
  {
    assert !PiecesReturn(variantOrder, classOrder, s, fuel - 1);
  }

  /** The simplest such input: `a ${b`. */
  lemma UnclosedTemplateExample(variantOrder: map<string, int>, classOrder: seq<string>, fuel: nat)
    ensures SortAsWritten(variantOrder, classOrder, "a ${b", fuel) == None
  {
    var s := "a ${b";
    assert OpensAt(s, 2) && !ClosedAfter(s, 2);
    UnclosedTemplateDiverges(variantOrder, classOrder, s, fuel);
  }

  /** Every other class list gets an answer within two nested calls, and it is the
      plain field sort. */
  lemma ClosedTemplateReturns(variantOrder: map<string, int>, classOrder: seq<string>, s: string)
    requires !HasUnclosedTemplate(s)
    ensures SortAsWritten(variantOrder, classOrder, s, 2) == Some(SortedClassString(variantOrder, classOrder, s))
  {
    ClosedPieces(s);
  }

  /** A token `v:u` whose first part is a variant and whose second is not has
      one variant; a token `w` that is no variant has none; so the sort puts `w`
      first. */
  lemma FewerVariantsFirst(variantOrder: map<string, int>, classOrder: seq<string>, v: string, u: string, w: string)
    requires ':' !in v && ':' !in u && ':' !in w
    requires IsVariant(variantOrder, v) && !IsVariant(variantOrder, u) && !IsVariant(variantOrder, w)
    ensures KeyLess(TokenKey(variantOrder, classOrder, w), TokenKey(variantOrder, classOrder, v + ":" + u))
  {
    var a := v + ":" + u;
    assert Parts(a) == [v, u] by {
      assert a[..|v|] == v && a[|v| + 1..] == u;
      SplitAt(a, ':', |v|);
    }
    assert LeadingVariantCount(variantOrder, [v, u]) == 1 by {
      assert [v, u][1..] == [u];
    }
    VariantCountOfToken(variantOrder, classOrder, a);
    VariantCountOfToken(variantOrder, classOrder, w);
  }

  /** The literal facts about `hover:${x b}` the example needs. */
  lemma ExampleTokens()
    ensures ':' !in "hover" && ':' !in "${x" && ':' !in "b}"
    ensures AreWords(["hover:${x", "b}"]) && "hover:${x" != "b}"
    ensures !IsArbitraryVariant("${x") && !IsArbitraryVariant("b}")
    ensures "hover" + ":" + "${x" == "hover:${x"
    ensures "hover:${x" + " " + "b}" == "hover:${x b}" && "b}" + " " + "hover:${x" == "b} hover:${x"
  {
  }

  /** `hover:${x b}` closes its `${`, and its sort `b} hover:${x` does not. */
  lemma ExampleTemplates()
    ensures !HasUnclosedTemplate("hover:${x b}")
    ensures HasUnclosedTemplate("b} hover:${x")
  {
    var s := "hover:${x b}";
    forall p | 0 <= p < |s| && OpensAt(s, p) ensures ClosedAfter(s, p) {
      assert p == 6 && s[11] == '}';
    }
    var t := "b} hover:${x";
    assert OpensAt(t, 9) && !ClosedAfter(t, 9);
  }

  /** Sorting can turn a closed template into an unclosed one. In
      `hover:${x b}` the `${x` belongs to a token with one variant and `b}` to a
      token with none, so the sort puts `b}` first. The call returns
      `b} hover:${x`, whose `${` no `}` follows any more, and sorting that result
      again never returns. */
  lemma SortOpensTemplate(variantOrder: map<string, int>, classOrder: seq<string>, fuel: nat)
    requires "hover" in variantOrder && "${x" !in variantOrder && "b}" !in variantOrder
    ensures !HasUnclosedTemplate("hover:${x b}")
    ensures SortAsWritten(variantOrder, classOrder, "hover:${x b}", 2) == Some("b} hover:${x")
    ensures SortAsWritten(variantOrder, classOrder, "b} hover:${x", fuel) == None
  {
    ExampleTokens();
    ExampleTemplates();
    FewerVariantsFirst(variantOrder, classOrder, "hover", "${x", "b}");
    SortedClassStringOfTwo(variantOrder, classOrder, "hover:${x", "b}");
    ClosedTemplateReturns(variantOrder, classOrder, "hover:${x b}");
    UnclosedTemplateDiverges(variantOrder, classOrder, "b} hover:${x", fuel);
  }

  /** The default variant table has `hover` and neither of the other two parts, so
      under it, whatever the class order, a second run over the first run's output
      never returns. */
  lemma DefaultSortOpensTemplate(classOrder: seq<string>, fuel: nat)
    ensures SortAsWritten(DefaultVariantOrder, classOrder, "hover:${x b}", 2) == Some("b} hover:${x")
    ensures SortAsWritten(DefaultVariantOrder, classOrder, "b} hover:${x", fuel) == None
  {
    SortOpensTemplate(DefaultVariantOrder, classOrder, fuel);
  }
}
