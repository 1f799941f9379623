/** The classifier: how one class token such as `md:hover:bg-red-500` is split into
    its variant prefixes and its utility, and how both are ranked against the
    configuration's priority tables. */
module Classifier {
  import opened GoStrings
  import opened Config

  /** One variant prefix of a token, with its priority. */
  datatype VariantProperty = VariantProperty(Order: int, Name: string)

  /** What the orderer needs to know about a token. */
  datatype ClassProperty = ClassProperty(Variants: seq<VariantProperty>, UtilityOrder: int, OriginalName: string)

  /** The pattern `^\[.+?\]` finds a match: the part opens with `[`, and a `]` closes
      it after at least one character, with no newline before that `]`. */
  predicate IsArbitraryVariant(part: string) {
    |part| >= 3 && part[0] == '[' &&
    exists k :: 2 <= k < |part| && part[k] == ']' && '\n' !in part[1..k]
  }

  /** A part is taken as a variant when it is an arbitrary `[...]` variant or a
      named variant of the table. */
  predicate IsVariant(variantOrder: map<string, int>, part: string) {
    IsArbitraryVariant(part) || part in variantOrder
  }

  /** The priority given to a variant part; the arbitrary test comes first. */
  function VariantOf(variantOrder: map<string, int>, part: string): (v: VariantProperty)
    requires IsVariant(variantOrder, part)
    ensures v.Name == part
    ensures IsArbitraryVariant(part) ==> v.Order == ArbitraryVariantOrder
    ensures !IsArbitraryVariant(part) ==> v.Order == variantOrder[part]
  {
    if IsArbitraryVariant(part) then VariantProperty(ArbitraryVariantOrder, part)
    else VariantProperty(variantOrder[part], part)
  }

  /** The variants of a run of variant parts, in the order the parts come. */
  function Collect(variantOrder: map<string, int>, parts: seq<string>): (vs: seq<VariantProperty>)
    requires forall i :: 0 <= i < |parts| ==> IsVariant(variantOrder, parts[i])
    ensures |vs| == |parts|
    ensures forall i :: 0 <= i < |parts| ==> vs[i] == VariantOf(variantOrder, parts[i])
  {
    if parts == [] then []
    else Collect(variantOrder, parts[..|parts| - 1]) + [VariantOf(variantOrder, parts[|parts| - 1])]
  }

  /** Collecting one more variant part appends its variant. */
  lemma CollectOneMore(variantOrder: map<string, int>, parts: seq<string>, idx: nat)
    requires idx < |parts|
    requires forall i :: 0 <= i <= idx ==> IsVariant(variantOrder, parts[i])
    ensures Collect(variantOrder, parts[..idx + 1]) == Collect(variantOrder, parts[..idx]) + [VariantOf(variantOrder, parts[idx])]
  {
    assert parts[..idx + 1][..idx] == parts[..idx];
  }

  /** Number of leading parts that are variants: the index of the first part that
      is not, or the number of parts when there is none. */
  function LeadingVariantCount(variantOrder: map<string, int>, parts: seq<string>): (n: nat)
    ensures n <= |parts|
    ensures forall i :: 0 <= i < n ==> IsVariant(variantOrder, parts[i])
    ensures n < |parts| ==> !IsVariant(variantOrder, parts[n])
  {
    if parts == [] || !IsVariant(variantOrder, parts[0]) then 0
    else 1 + LeadingVariantCount(variantOrder, parts[1..])
  }

  /** The colon-separated parts of a token. */
  function Parts(className: string): (parts: seq<string>)
    ensures |parts| >= 1
  {
    Split(className, ':')
  }

  /** Index of the part where the utility begins: the first non-variant part, or
      the last part when every part is a variant. */
  function UtilityIndex(variantOrder: map<string, int>, className: string): (u: nat)
    ensures u < |Parts(className)|
  {
    var parts := Parts(className);
    var n := LeadingVariantCount(variantOrder, parts);
    if n == |parts| then |parts| - 1 else n
  }

  /** The utility: the parts from the utility index on, joined back with `:`. */
  function Utility(variantOrder: map<string, int>, className: string): string {
    var parts := Parts(className);
    Join(parts[UtilityIndex(variantOrder, className)..], ":")
  }

  /** The variants of a token as collected, before sorting. */
  function CollectedVariants(variantOrder: map<string, int>, className: string): seq<VariantProperty> {
    var parts := Parts(className);
    Collect(variantOrder, parts[..LeadingVariantCount(variantOrder, parts)])
  }

  /** The ordering `sort.Slice` is given for variants: by order, then by name. */
  predicate VariantLess(a: VariantProperty, b: VariantProperty) {
    a.Order < b.Order || (a.Order == b.Order && StrLess(a.Name, b.Name))
  }

  predicate VariantsSorted(vs: seq<VariantProperty>) {
    forall i, j :: 0 <= i < j < |vs| ==> !VariantLess(vs[j], vs[i])
  }

  lemma VariantLessIrreflexive(a: VariantProperty)
    ensures !VariantLess(a, a)
  {
    StrLessIrreflexive(a.Name);
  }

  lemma VariantLessTransitive(a: VariantProperty, b: VariantProperty, c: VariantProperty)
    requires VariantLess(a, b) && VariantLess(b, c)
    ensures VariantLess(a, c)
  {
    if a.Order == b.Order == c.Order {
      StrLessTransitive(a.Name, b.Name, c.Name);
    }
  }

  /** Two variants neither of which is less than the other are the same variant:
      the comparator's key is the whole element. */
  lemma VariantLessTotal(a: VariantProperty, b: VariantProperty)
    requires !VariantLess(a, b) && !VariantLess(b, a)
    ensures a == b
  {
    if a.Name != b.Name {
      StrLessTotal(a.Name, b.Name);
    }
  }

  /** No element of `s` is less than `x`. */
  predicate NoneBelow(x: VariantProperty, s: seq<VariantProperty>) {
    forall y :: y in s ==> !VariantLess(y, x)
  }

  lemma SortedCons(x: VariantProperty, s: seq<VariantProperty>)
    ensures VariantsSorted([x] + s) <==> NoneBelow(x, s) && VariantsSorted(s)
  {
    var r := [x] + s;
    if NoneBelow(x, s) && VariantsSorted(s) {
      forall i, j | 0 <= i < j < |r| ensures !VariantLess(r[j], r[i]) {
        if i > 0 { assert r[i] == s[i - 1] && r[j] == s[j - 1]; } else { assert r[j] in s; }
      }
    }
    if VariantsSorted(r) {
      forall y | y in s ensures !VariantLess(y, x) {
        var k :| 0 <= k < |s| && s[k] == y;
        assert r[0] == x && r[k + 1] == y;
      }
      forall i, j | 0 <= i < j < |s| ensures !VariantLess(s[j], s[i]) {
        assert r[i + 1] == s[i] && r[j + 1] == s[j];
      }
    }
  }

  /** Inserts `v` into a sequence of variants, before the first element not less
      than it. */
  function InsertVariant(v: VariantProperty, vs: seq<VariantProperty>): (r: seq<VariantProperty>)
    ensures multiset(r) == multiset(vs) + multiset{v}
  {
    if vs == [] then [v]
    else if VariantLess(vs[0], v) then
      assert vs == [vs[0]] + vs[1..];
      [vs[0]] + InsertVariant(v, vs[1..])
    else [v] + vs
  }

  lemma {:induction false} InsertVariantSorted(v: VariantProperty, vs: seq<VariantProperty>)
    requires VariantsSorted(vs)
    ensures VariantsSorted(InsertVariant(v, vs))
    decreases |vs|
  {
    if vs == [] {
    } else {
      assert vs == [vs[0]] + vs[1..];
      SortedCons(vs[0], vs[1..]);
      if VariantLess(vs[0], v) {
        var rest := InsertVariant(v, vs[1..]);
        InsertVariantSorted(v, vs[1..]);
        forall y | y in rest ensures !VariantLess(y, vs[0]) {
          assert y in multiset(rest);
          if y == v {
            if VariantLess(v, vs[0]) { VariantLessTransitive(v, vs[0], v); VariantLessIrreflexive(v); }
          } else {
            assert y in multiset(vs[1..]);
          }
        }
        SortedCons(vs[0], rest);
      } else {
        VariantLessIrreflexive(vs[0]);
        forall y | y in vs ensures !VariantLess(y, v) {
          if VariantLess(y, v) {
            if VariantLess(v, vs[0]) {
              VariantLessTransitive(y, v, vs[0]);
            } else {
              VariantLessTotal(v, vs[0]);
            }
          }
        }
        SortedCons(v, vs);
      }
    }
  }

  /** Library `sort.Slice` over the variants with the comparator above; the result
      does not depend on the algorithm, as `SortedVariantsUnique` shows. */
  function SortVariants(vs: seq<VariantProperty>): (r: seq<VariantProperty>)
    ensures VariantsSorted(r)
    ensures multiset(r) == multiset(vs)
  {
    if vs == [] then []
    else
      assert vs == [vs[0]] + vs[1..];
      InsertVariantSorted(vs[0], SortVariants(vs[1..]));
      InsertVariant(vs[0], SortVariants(vs[1..]))
  }

  /** Two sorted arrangements of the same variants start with the same one: the
      least variant. */
  lemma SortedHeadsEqual(a: seq<VariantProperty>, b: seq<VariantProperty>)
    requires a != [] && b != []
    requires VariantsSorted(a) && VariantsSorted(b)
    requires multiset(a) == multiset(b)
    ensures a[0] == b[0]
  {
    assert a == [a[0]] + a[1..] && b == [b[0]] + b[1..];
    SortedCons(a[0], a[1..]);
    SortedCons(b[0], b[1..]);
    assert b[0] in multiset(a) && a[0] in multiset(b);
    if a[0] != b[0] {
      assert b[0] in a[1..] && a[0] in b[1..];
      VariantLessTotal(a[0], b[0]);
    }
  }

  /** Two sorted arrangements of the same variants are identical, so the unstable
      library sort has exactly one possible outcome. */
  lemma {:induction false} SortedVariantsUnique(a: seq<VariantProperty>, b: seq<VariantProperty>)
    requires VariantsSorted(a) && VariantsSorted(b)
    requires multiset(a) == multiset(b)
    ensures a == b
    decreases |a|
  {
    assert |b| == |multiset(b)| == |multiset(a)| == |a|;
    if a != [] {
      SortedHeadsEqual(a, b);
      assert a == [a[0]] + a[1..] && b == [b[0]] + b[1..];
      SortedCons(a[0], a[1..]);
      SortedCons(b[0], b[1..]);
      assert multiset(a[1..]) == multiset(a) - multiset{a[0]};
      assert multiset(b[1..]) == multiset(b) - multiset{b[0]};
      SortedVariantsUnique(a[1..], b[1..]);
    }
  }

  /** The priority of a utility: the index of the first prefix in the table that
      starts it, or the table's length when no prefix does. */
  function UtilityOrderOf(classOrder: seq<string>, utility: string): (r: nat)
    ensures r <= |classOrder|
    ensures r < |classOrder| ==> HasPrefix(utility, classOrder[r])
    ensures forall j :: 0 <= j < r ==> !HasPrefix(utility, classOrder[j])
  {
    if classOrder == [] then 0
    else if HasPrefix(utility, classOrder[0]) then 0
    else 1 + UtilityOrderOf(classOrder[1..], utility)
  }

  /** The classification of a token, as `getClassProperty` returns it. */
  function ClassPropertyOf(variantOrder: map<string, int>, classOrder: seq<string>, className: string): ClassProperty {
    ClassProperty(SortVariants(CollectedVariants(variantOrder, className)),
                  UtilityOrderOf(classOrder, Utility(variantOrder, className)),
                  className)
  }

  /** `getClassProperty`: collects the leading variant parts until the first part
      that is not one, sorts them, and searches the prefix table for the utility. */
  method GetClassProperty(config: Config, className: string) returns (p: ClassProperty)
    ensures p == ClassPropertyOf(config.VariantOrder, config.ClassOrder, className)
  {
    var parts := Split(className, ':');
    var variants: seq<VariantProperty> := [];
    var utilityIndex := |parts| - 1;
    var idx := 0;
    while idx < |parts|
      invariant 0 <= idx <= |parts|
      invariant forall i :: 0 <= i < idx ==> IsVariant(config.VariantOrder, parts[i])
      invariant variants == Collect(config.VariantOrder, parts[..idx])
      invariant utilityIndex == |parts| - 1
    {
      var part := parts[idx];
      if IsArbitraryVariant(part) {
        variants := variants + [VariantProperty(ArbitraryVariantOrder, part)];
        CollectOneMore(config.VariantOrder, parts, idx);
        idx := idx + 1;
        continue;
      }
      if part in config.VariantOrder {
        variants := variants + [VariantProperty(config.VariantOrder[part], part)];
        CollectOneMore(config.VariantOrder, parts, idx);
        idx := idx + 1;
        continue;
      }
      utilityIndex := idx;
      break;
    }
    assert idx == LeadingVariantCount(config.VariantOrder, parts);
    assert utilityIndex == UtilityIndex(config.VariantOrder, className);
    var utility := Join(parts[utilityIndex..], ":");

    variants := SortVariants(variants);

    var utilityOrder := FindUtilityOrder(config.ClassOrder, utility);
    p := ClassProperty(variants, utilityOrder, className);
  }

  /** The prefix search of `getClassProperty`: the first prefix in the table that
      starts the utility wins, and the table's length stands for no match. */
  method FindUtilityOrder(classOrder: seq<string>, utility: string) returns (utilityOrder: nat)
    ensures utilityOrder == UtilityOrderOf(classOrder, utility)
  {
    utilityOrder := |classOrder|;
    var i := 0;
    while i < |classOrder|
      invariant 0 <= i <= |classOrder|
      invariant forall j :: 0 <= j < i ==> !HasPrefix(utility, classOrder[j])
    {
      if HasPrefix(utility, classOrder[i]) {
        utilityOrder := i;
        break;
      }
      i := i + 1;
    }
  }

  /** When some part is not a variant, the utility starts at the first such part
      and runs to the end of the token; the variant parts and the utility, joined
      with `:`, give the token back. */
  lemma UtilityIsRestOfToken(variantOrder: map<string, int>, className: string)
    ensures var parts := Parts(className);
            var n := LeadingVariantCount(variantOrder, parts);
            n < |parts| ==>
              && !IsVariant(variantOrder, parts[n])
              && Utility(variantOrder, className) == Join(parts[n..], ":")
              && Join(parts[..n] + [Utility(variantOrder, className)], ":") == className
  {
    var parts := Parts(className);
    var n := LeadingVariantCount(variantOrder, parts);
    if n < |parts| {
      JoinAt(parts, n, ":");
    }
  }

  /** When every part is a variant, the last part is the utility and is also one
      of the token's variants. */
  lemma AllVariantsUtilityIsLast(variantOrder: map<string, int>, classOrder: seq<string>, className: string)
    ensures var parts := Parts(className);
            LeadingVariantCount(variantOrder, parts) == |parts| ==>
              && Utility(variantOrder, className) == parts[|parts| - 1]
              && VariantOf(variantOrder, parts[|parts| - 1]) in ClassPropertyOf(variantOrder, classOrder, className).Variants
  {
    var parts := Parts(className);
    if LeadingVariantCount(variantOrder, parts) == |parts| {
      var last := parts[|parts| - 1];
      assert Utility(variantOrder, className) == last by {
        assert parts[|parts| - 1..] == [last];
      }
      assert VariantOf(variantOrder, last) in ClassPropertyOf(variantOrder, classOrder, className).Variants by {
        var collected := CollectedVariants(variantOrder, className);
        assert parts[..|parts|] == parts;
        assert collected[|parts| - 1] == VariantOf(variantOrder, last);
        assert VariantOf(variantOrder, last) in multiset(collected);
      }
    }
  }

  /** The variants of a token are its leading variant parts, each with the order
      the table gives it (99 for an arbitrary one), sorted by order and then name. */
  lemma ClassPropertyVariants(variantOrder: map<string, int>, classOrder: seq<string>, className: string)
    ensures var p := ClassPropertyOf(variantOrder, classOrder, className);
            var parts := Parts(className);
            var n := LeadingVariantCount(variantOrder, parts);
            && |p.Variants| == n
            && VariantsSorted(p.Variants)
            && multiset(p.Variants) == multiset(Collect(variantOrder, parts[..n]))
            && forall v :: v in p.Variants ==>
                 && v.Name in parts[..n]
                 && (IsArbitraryVariant(v.Name) ==> v.Order == ArbitraryVariantOrder)
                 && (!IsArbitraryVariant(v.Name) ==> v.Name in variantOrder && v.Order == variantOrder[v.Name])
  {
    var p := ClassPropertyOf(variantOrder, classOrder, className);
    var parts := Parts(className);
    var n := LeadingVariantCount(variantOrder, parts);
    var collected := Collect(variantOrder, parts[..n]);
    assert |p.Variants| == n by {
      assert |p.Variants| == |multiset(p.Variants)| == |multiset(collected)| == |collected|;
    }
    forall v | v in p.Variants
      ensures v.Name in parts[..n]
      ensures IsArbitraryVariant(v.Name) ==> v.Order == ArbitraryVariantOrder
      ensures !IsArbitraryVariant(v.Name) ==> v.Name in variantOrder && v.Order == variantOrder[v.Name]
    {
      assert v in multiset(collected);
      var k :| 0 <= k < n && collected[k] == v;
      assert v == VariantOf(variantOrder, parts[..n][k]);
    }
  }

  /** An entry of the prefix table that an earlier entry is a prefix of can never
      be a utility's order: the earlier entry always matches first. */
  lemma ShadowedEntryNeverChosen(classOrder: seq<string>, utility: string, earlier: nat, later: nat)
    requires earlier < later < |classOrder|
    requires HasPrefix(classOrder[later], classOrder[earlier])
    ensures UtilityOrderOf(classOrder, utility) != later
  {
    if UtilityOrderOf(classOrder, utility) == later {
      HasPrefixTransitive(utility, classOrder[later], classOrder[earlier]);
    }
  }

  /** The second "table" and "filter" entries, and "btn-primary" behind "btn", are
      never produced as a utility order by the default table. */
  lemma DefaultShadowedEntries(utility: string)
    ensures UtilityOrderOf(DefaultClassOrder, utility) !in {2, 657, 788}
  {
    DefaultClassOrderButton();
    DefaultClassOrderTableTwice();
    DefaultClassOrderFilterTwice();
    ShadowedEntryNeverChosen(DefaultClassOrder, utility, 1, 2);
    ShadowedEntryNeverChosen(DefaultClassOrder, utility, 163, 657);
    ShadowedEntryNeverChosen(DefaultClassOrder, utility, 340, 788);
  }

  /** With the default table, an arbitrary `[...]` variant sorts after every named
      variant. */
  lemma ArbitraryVariantAfterNamed(named: string, arbitrary: string)
    requires named in DefaultVariantOrder
    requires IsArbitraryVariant(arbitrary)
    ensures VariantLess(VariantOf(DefaultVariantOrder, named), VariantOf(DefaultVariantOrder, arbitrary))
  {
    DefaultVariantNamesPlain();
    DefaultVariantOrderBelowArbitrary();
  }
}
