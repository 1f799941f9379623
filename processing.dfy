/** `processFileContent` with the class-list sort as written. The closure given to
    `ReplaceAllFunc` calls the recursive `sortTWClassString` on every matched
    class list, so the file comes back only when each of those calls returns. */
module Processing {
  import opened Wrappers
  import opened Extractor
  import Template

  /** The closure on one piece, with the sort as written: `None` when the call on
      the matched class list does not return within `fuel`. */
  function RewritePieceAsWritten(variantOrder: map<string, int>, classOrder: seq<string>, p: Piece, fuel: nat): Option<Piece> {
    match p
    case Gap(_, _) => Some(p)
    case Hit(at, a) =>
      match Template.SortAsWritten(variantOrder, classOrder, a.Content, fuel)
      case None => None
      case Some(c) => Some(Hit(at, a.(Content := c)))
  }

  /** The closure applied to every piece in turn; one call that does not return
      stops the whole rewrite. */
  function RewriteAsWritten(variantOrder: map<string, int>, classOrder: seq<string>, ps: seq<Piece>, fuel: nat): Option<seq<Piece>>
    decreases |ps|
  {
    if ps == [] then Some([])
    else
      match RewritePieceAsWritten(variantOrder, classOrder, ps[0], fuel)
      case None => None
      case Some(q) =>
        match RewriteAsWritten(variantOrder, classOrder, ps[1..], fuel)
        case None => None
        case Some(qs) => Some([q] + qs)
  }

  /** The sort as written returns within `fuel` on every matched class list. */
  predicate AllReturn(variantOrder: map<string, int>, classOrder: seq<string>, ps: seq<Piece>, fuel: nat) {
    forall k :: 0 <= k < |ps| && ps[k].Hit? ==> Template.SortAsWritten(variantOrder, classOrder, ps[k].Match.Content, fuel).Some?
  }

  /** No matched class list holds a `${` that no `}` follows. */
  predicate AllClosed(ps: seq<Piece>) {
    forall k :: 0 <= k < |ps| && ps[k].Hit? ==> !Template.HasUnclosedTemplate(ps[k].Match.Content)
  }

  /** The rewrite as written finishes exactly when every call returns, and then it
      is the rewrite with the plain sort. */
  lemma {:induction false} RewriteAsWrittenIsRewrite(variantOrder: map<string, int>, classOrder: seq<string>, ps: seq<Piece>, fuel: nat)
    ensures RewriteAsWritten(variantOrder, classOrder, ps, fuel).Some? <==> AllReturn(variantOrder, classOrder, ps, fuel)
    ensures RewriteAsWritten(variantOrder, classOrder, ps, fuel).Some? ==>
              RewriteAsWritten(variantOrder, classOrder, ps, fuel).value == Rewrite(variantOrder, classOrder, ps)
    decreases |ps|
  {
    if ps != [] {
      RewriteAsWrittenIsRewrite(variantOrder, classOrder, ps[1..], fuel);
      if ps[0].Hit? {
        Template.SortAsWrittenIsPlainSort(variantOrder, classOrder, ps[0].Match.Content, fuel);
      }
      assert forall k :: 1 <= k < |ps| ==> ps[k] == ps[1..][k - 1];
      RewriteCons(variantOrder, classOrder, ps);
    }
  }

  /** The plain rewrite of a non-empty list is the first piece's rewrite followed
      by the rest's. */
  lemma RewriteCons(variantOrder: map<string, int>, classOrder: seq<string>, ps: seq<Piece>)
    requires ps != []
    ensures Rewrite(variantOrder, classOrder, ps) ==
            [RewritePiece(variantOrder, classOrder, ps[0])] + Rewrite(variantOrder, classOrder, ps[1..])
  {
    var l := Rewrite(variantOrder, classOrder, ps);
    var r := [RewritePiece(variantOrder, classOrder, ps[0])] + Rewrite(variantOrder, classOrder, ps[1..]);
    forall k | 0 <= k < |l| ensures l[k] == r[k] {
      if k > 0 {
        assert ps[1..][k - 1] == ps[k];
      }
    }
  }

  /** `processFileContent` as written: scan for the attribute pattern and run the
      closure, with the recursive sort, on every match. */
  function ProcessAsWritten(variantOrder: map<string, int>, classOrder: seq<string>, classAttributes: seq<string>, content: string, fuel: nat): Option<string> {
    match RewriteAsWritten(variantOrder, classOrder, Scan(content, Alternatives(classAttributes), 0), fuel)
    case None => None
    case Some(qs) => Some(Render(qs))
  }

  /** Whenever the source returns, it returns what the model's
      `ProcessFileContent` returns. */
  lemma ProcessAsWrittenAgrees(variantOrder: map<string, int>, classOrder: seq<string>, classAttributes: seq<string>, content: string, fuel: nat)
    ensures var r := ProcessAsWritten(variantOrder, classOrder, classAttributes, content, fuel);
            r.Some? ==> r.value == ProcessFileContent(variantOrder, classOrder, classAttributes, content)
  {
    RewriteAsWrittenIsRewrite(variantOrder, classOrder, Scan(content, Alternatives(classAttributes), 0), fuel);
  }

  /** The source returns on a file exactly when no matched class list holds a `${`
      that no `}` follows (two nested calls of the sort then suffice). */
  lemma ProcessAsWrittenReturnsIff(variantOrder: map<string, int>, classOrder: seq<string>, classAttributes: seq<string>, content: string)
    ensures ProcessAsWritten(variantOrder, classOrder, classAttributes, content, 2).Some? <==>
            AllClosed(Scan(content, Alternatives(classAttributes), 0))
  {
    var ps := Scan(content, Alternatives(classAttributes), 0);
    RewriteAsWrittenIsRewrite(variantOrder, classOrder, ps, 2);
    if AllClosed(ps) {
      forall k | 0 <= k < |ps| && ps[k].Hit?
        ensures Template.SortAsWritten(variantOrder, classOrder, ps[k].Match.Content, 2).Some?
      {
        Template.ClosedTemplateReturns(variantOrder, classOrder, ps[k].Match.Content);
      }
    } else {
      var k :| 0 <= k < |ps| && ps[k].Hit? && Template.HasUnclosedTemplate(ps[k].Match.Content);
      Template.UnclosedTemplateDiverges(variantOrder, classOrder, ps[k].Match.Content, 2);
    }
  }

  /** A file with a matched class list holding a `${` that no `}` follows never
      comes back, whatever the fuel. */
  lemma ProcessAsWrittenDiverges(variantOrder: map<string, int>, classOrder: seq<string>, classAttributes: seq<string>, content: string, fuel: nat)
    requires !AllClosed(Scan(content, Alternatives(classAttributes), 0))
    ensures ProcessAsWritten(variantOrder, classOrder, classAttributes, content, fuel) == None
  {
    var ps := Scan(content, Alternatives(classAttributes), 0);
    RewriteAsWrittenIsRewrite(variantOrder, classOrder, ps, fuel);
    var k :| 0 <= k < |ps| && ps[k].Hit? && Template.HasUnclosedTemplate(ps[k].Match.Content);
    Template.UnclosedTemplateDiverges(variantOrder, classOrder, ps[k].Match.Content, fuel);
  }

  /** A match that fits and has a quote-free class list is what a one-name
      pattern finds at the start of any text that begins with it. */
  lemma MatchOnFront(a: Attr, rest: string)
    requires Fits(a) && Plain(a.Content)
    ensures MatchAt(Text(a) + rest, 0, [a.Name]) == Some(a)
  {
    var s := Text(a) + rest;
    assert s[0..|Text(a)|] == Text(a);
    MatchesAtText(s, 0, a);
    MatchNameFindsPlain(s, 0, a);
  }

  /** The scan of a text starts with the match found at its first index. */
  lemma FirstPieceIsMatch(s: string, names: seq<string>, a: Attr)
    requires 0 < |s| && MatchAt(s, 0, names) == Some(a)
    ensures var ps := Scan(s, names, 0); |ps| > 0 && ps[0] == Hit(0, a)
  {
    var ps := Scan(s, names, 0);
    assert |ps| > 0 by {
      assert Render(ps) == s[0..];
    }
    assert Stepped(s, names, ps[0]);
  }

  /** A scan whose first match holds a `${` that no `}` follows never comes back. */
  lemma FirstHitDiverges(variantOrder: map<string, int>, classOrder: seq<string>, classAttributes: seq<string>, content: string, fuel: nat)
    requires var ps := Scan(content, Alternatives(classAttributes), 0);
             |ps| > 0 && ps[0].Hit? && Template.HasUnclosedTemplate(ps[0].Match.Content)
    ensures ProcessAsWritten(variantOrder, classOrder, classAttributes, content, fuel) == None
  {
    ProcessAsWrittenDiverges(variantOrder, classOrder, classAttributes, content, fuel);
  }

  /** The pieces of the conditional attribute `class="${c?'a':'b'}"`: the match
      the lazy content gives, ending at the first quote, and what follows it. */
  lemma ConditionalAttributeParts()
    ensures var a := Attr("class", "=", '"', "${c?", '\'');
            && Fits(a) && Plain(a.Content)
            && Text(a) + "a':'b'}\"" == "class=\"${c?'a':'b'}\""
            && Template.HasUnclosedTemplate(a.Content)
  {
    var a := Attr("class", "=", '"', "${c?", '\'');
    assert IsAssign("=") by {
      assert "="[0] == '=';
    }
    assert Template.OpensAt(a.Content, 0) && !Template.ClosedAfter(a.Content, 0);
  }

  /** An ordinary conditional attribute: the lazy content stops at the first
      quote, which lies inside the template, so the class list handed to the sort
      is `${c?`. */
  lemma ConditionalAttributeMatch()
    ensures var ps := Scan("class=\"${c?'a':'b'}\"", ["class"], 0);
            |ps| > 0 && ps[0] == Hit(0, Attr("class", "=", '"', "${c?", '\''))
  {
    ConditionalAttributeParts();
    MatchOnFront(Attr("class", "=", '"', "${c?", '\''), "a':'b'}\"");
    FirstPieceIsMatch("class=\"${c?'a':'b'}\"", ["class"], Attr("class", "=", '"', "${c?", '\''));
  }

  /** On that attribute the file never comes back, already on the first run. */
  lemma ConditionalAttributeDiverges(variantOrder: map<string, int>, classOrder: seq<string>, fuel: nat)
    ensures ProcessAsWritten(variantOrder, classOrder, ["class"], "class=\"${c?'a':'b'}\"", fuel) == None
  {
    ConditionalAttributeParts();
    ConditionalAttributeMatch();
    FirstHitDiverges(variantOrder, classOrder, ["class"], "class=\"${c?'a':'b'}\"", fuel);
  }
}
