/** The orderer: how a whole class list is rewritten. The list is split into
    whitespace-separated tokens, repeated tokens are dropped, the rest are
    stable-sorted by the comparator of `sortTWClassString`, and the result is joined
    with single spaces. */
module Orderer {
  import opened GoStrings
  import opened Config
  import opened Classifier

  /** The part of a token's classification the comparator looks at: the orders of
      its sorted variants, position by position, and its utility order. */
  datatype SortKey = SortKey(VariantOrders: seq<int>, UtilityOrder: int)

  function OrdersOf(vs: seq<VariantProperty>): (os: seq<int>)
    ensures |os| == |vs|
    ensures forall i :: 0 <= i < |vs| ==> os[i] == vs[i].Order
  {
    if vs == [] then [] else [vs[0].Order] + OrdersOf(vs[1..])
  }

  function KeyOf(p: ClassProperty): SortKey {
    SortKey(OrdersOf(p.Variants), p.UtilityOrder)
  }

  /** The key of a token under the given tables. */
  function TokenKey(variantOrder: map<string, int>, classOrder: seq<string>, token: string): SortKey {
    KeyOf(ClassPropertyOf(variantOrder, classOrder, token))
  }

  /** The key function the sort uses under the given tables. */
  function TokenKeys(variantOrder: map<string, int>, classOrder: seq<string>): string -> SortKey {
    t => TokenKey(variantOrder, classOrder, t)
  }

  /** The comparator's first criterion, the number of variants, is the number of
      leading variant parts of the token. */
  lemma VariantCountOfToken(variantOrder: map<string, int>, classOrder: seq<string>, token: string)
    ensures |TokenKey(variantOrder, classOrder, token).VariantOrders| == LeadingVariantCount(variantOrder, Parts(token))
  {
    var vs := CollectedVariants(variantOrder, token);
    assert |SortVariants(vs)| == |multiset(SortVariants(vs))| == |multiset(vs)|;
  }

  /** The comparator's loop over variant positions: the first position whose
      orders differ decides, and equal orders throughout leave it to the utility. */
  predicate OrdersLess(a: seq<int>, b: seq<int>, utilityA: int, utilityB: int)
    requires |a| == |b|
  {
    if a == [] then utilityA < utilityB
    else if a[0] != b[0] then a[0] < b[0]
    else OrdersLess(a[1..], b[1..], utilityA, utilityB)
  }

  /** The comparator given to `sort.SliceStable`: fewer variants first, then the
      first differing variant order, then the utility order. */
  predicate KeyLess(a: SortKey, b: SortKey) {
    if |a.VariantOrders| != |b.VariantOrders| then |a.VariantOrders| < |b.VariantOrders|
    else OrdersLess(a.VariantOrders, b.VariantOrders, a.UtilityOrder, b.UtilityOrder)
  }

  /** Lexicographic order on integer sequences, a proper prefix coming first. */
  predicate LexLess(a: seq<int>, b: seq<int>) {
    |b| > 0 && (|a| == 0 || a[0] < b[0] || (a[0] == b[0] && LexLess(a[1..], b[1..])))
  }

  /** A key spelled out as one integer sequence: variant count, variant orders,
      utility order. */
  function Flatten(k: SortKey): seq<int> {
    [|k.VariantOrders|] + k.VariantOrders + [k.UtilityOrder]
  }

  lemma {:induction false} OrdersLessIsLexicographic(a: seq<int>, b: seq<int>, utilityA: int, utilityB: int)
    requires |a| == |b|
    ensures OrdersLess(a, b, utilityA, utilityB) <==> LexLess(a + [utilityA], b + [utilityB])
    decreases |a|
  {
    if a != [] {
      OrdersLessIsLexicographic(a[1..], b[1..], utilityA, utilityB);
      assert (a + [utilityA])[1..] == a[1..] + [utilityA];
      assert (b + [utilityB])[1..] == b[1..] + [utilityB];
    }
  }

  /** The comparator is the lexicographic order on flattened keys. */
  lemma KeyLessIsLexicographic(a: SortKey, b: SortKey)
    ensures KeyLess(a, b) <==> LexLess(Flatten(a), Flatten(b))
  {
    var fa, fb := Flatten(a), Flatten(b);
    assert fa[1..] == a.VariantOrders + [a.UtilityOrder];
    assert fb[1..] == b.VariantOrders + [b.UtilityOrder];
    if |a.VariantOrders| == |b.VariantOrders| {
      OrdersLessIsLexicographic(a.VariantOrders, b.VariantOrders, a.UtilityOrder, b.UtilityOrder);
    }
  }

  lemma {:induction false} OrdersLessIrreflexive(a: seq<int>, u: int)
    ensures !OrdersLess(a, a, u, u)
    decreases |a|
  {
    if a != [] { OrdersLessIrreflexive(a[1..], u); }
  }

  lemma {:induction false} OrdersLessTransitive(a: seq<int>, b: seq<int>, c: seq<int>, ua: int, ub: int, uc: int)
    requires |a| == |b| == |c|
    requires OrdersLess(a, b, ua, ub) && OrdersLess(b, c, ub, uc)
    ensures OrdersLess(a, c, ua, uc)
    decreases |a|
  {
    if a != [] && a[0] == b[0] == c[0] {
      OrdersLessTransitive(a[1..], b[1..], c[1..], ua, ub, uc);
    }
  }

  lemma {:induction false} OrdersLessTotal(a: seq<int>, b: seq<int>, ua: int, ub: int)
    requires |a| == |b|
    requires !OrdersLess(a, b, ua, ub) && !OrdersLess(b, a, ub, ua)
    ensures a == b && ua == ub
    decreases |a|
  {
    if a != [] {
      OrdersLessTotal(a[1..], b[1..], ua, ub);
      assert a == [a[0]] + a[1..] && b == [b[0]] + b[1..];
    }
  }

  lemma KeyLessIrreflexive(a: SortKey)
    ensures !KeyLess(a, a)
  {
    OrdersLessIrreflexive(a.VariantOrders, a.UtilityOrder);
  }

  lemma KeyLessTransitive(a: SortKey, b: SortKey, c: SortKey)
    requires KeyLess(a, b) && KeyLess(b, c)
    ensures KeyLess(a, c)
  {
    if |a.VariantOrders| == |b.VariantOrders| == |c.VariantOrders| {
      OrdersLessTransitive(a.VariantOrders, b.VariantOrders, c.VariantOrders, a.UtilityOrder, b.UtilityOrder, c.UtilityOrder);
    }
  }

  /** Keys neither of which is less than the other are equal: the comparator ties
      exactly the tokens whose keys agree. */
  lemma KeyLessTotal(a: SortKey, b: SortKey)
    requires !KeyLess(a, b) && !KeyLess(b, a)
    ensures a == b
  {
    OrdersLessTotal(a.VariantOrders, b.VariantOrders, a.UtilityOrder, b.UtilityOrder);
  }

  /** No token appears twice. */
  predicate Distinct(ts: seq<string>) {
    forall i, j :: 0 <= i < j < |ts| ==> ts[i] != ts[j]
  }

  /** The first occurrence of each token, in order of first appearance. */
  function Dedup(ts: seq<string>): (r: seq<string>)
    ensures Distinct(r)
    ensures forall t :: t in r <==> t in ts
  {
    if ts == [] then []
    else
      var init := ts[..|ts| - 1];
      var last := ts[|ts| - 1];
      assert ts == init + [last];
      if last in Dedup(init) then Dedup(init) else Dedup(init) + [last]
  }

  /** Index of the first occurrence of `t` in `ts`. */
  function FirstIndex(ts: seq<string>, t: string): (k: nat)
    requires t in ts
    ensures k < |ts| && ts[k] == t && t !in ts[..k]
  {
    if ts[0] == t then 0
    else
      var k := FirstIndex(ts[1..], t);
      assert ts[..k + 1] == [ts[0]] + ts[1..][..k];
      k + 1
  }

  /** An occurrence with no earlier one is the first occurrence. */
  lemma FirstIndexUnique(ts: seq<string>, t: string, k: nat)
    requires k < |ts| && ts[k] == t && t !in ts[..k]
    ensures FirstIndex(ts, t) == k
  {
  }

  /** The tokens of `r`, all taken from `ts`, come in the order of their first
      occurrences in `ts`. */
  predicate FirstSeenOrder(ts: seq<string>, r: seq<string>)
    requires forall t :: t in r ==> t in ts
  {
    forall i, j :: 0 <= i < j < |r| ==> FirstIndex(ts, r[i]) < FirstIndex(ts, r[j])
  }

  /** Deduplication keeps the tokens in the order of their first occurrences:
      together with `Dedup`'s own contract, its result is the input's distinct
      tokens listed by first appearance. */
  lemma {:induction false} DedupFirstSeen(ts: seq<string>)
    ensures FirstSeenOrder(ts, Dedup(ts))
    decreases |ts|
  {
    if ts != [] {
      var init := ts[..|ts| - 1];
      var last := ts[|ts| - 1];
      assert ts == init + [last];
      DedupFirstSeen(init);
      var d := Dedup(init);
      var r := Dedup(ts);
      forall t | t in init ensures FirstIndex(ts, t) == FirstIndex(init, t) {
        var k := FirstIndex(init, t);
        assert ts[..k] == init[..k];
        FirstIndexUnique(ts, t, k);
      }
      if last !in d {
        assert r == d + [last];
        FirstIndexUnique(ts, last, |ts| - 1);
        forall i, j | 0 <= i < j < |r| ensures FirstIndex(ts, r[i]) < FirstIndex(ts, r[j]) {
          assert r[i] == d[i] && d[i] in init;
          if j < |d| {
            assert r[j] == d[j] && d[j] in init;
          } else {
            assert r[j] == last;
          }
        }
      }
    }
  }

  /** Tokens sorted under `key`: no token is less than one before it. */
  predicate Sorted(key: string -> SortKey, ts: seq<string>) {
    forall i, j :: 0 <= i < j < |ts| ==> !KeyLess(key(ts[j]), key(ts[i]))
  }

  /** The tokens of `ts` with key `k`, in order. */
  function Filter(key: string -> SortKey, ts: seq<string>, k: SortKey): seq<string> {
    if ts == [] then []
    else (if key(ts[0]) == k then [ts[0]] else []) + Filter(key, ts[1..], k)
  }

  /** Inserts `x` before the first token that is not less than it. */
  function Insert(key: string -> SortKey, x: string, ts: seq<string>): (r: seq<string>)
    ensures multiset(r) == multiset(ts) + multiset{x}
  {
    if ts == [] || !KeyLess(key(ts[0]), key(x)) then [x] + ts
    else
      assert ts == [ts[0]] + ts[1..];
      [ts[0]] + Insert(key, x, ts[1..])
  }

  /** Library `sort.SliceStable` under `key`, as an insertion sort: each token goes
      in front of the sorted rest, ahead of the tokens with its key. */
  function StableSort(key: string -> SortKey, ts: seq<string>): (r: seq<string>)
    ensures multiset(r) == multiset(ts)
  {
    if ts == [] then []
    else
      assert ts == [ts[0]] + ts[1..];
      Insert(key, ts[0], StableSort(key, ts[1..]))
  }

  /** Two tokens, the second strictly less than the first, come out swapped. */
  lemma StableSortSwap(key: string -> SortKey, a: string, w: string)
    requires KeyLess(key(w), key(a))
    ensures StableSort(key, [a, w]) == [w, a]
  {
    assert StableSort(key, [w]) == [w] by {
      assert [w][1..] == [];
    }
    assert StableSort(key, [a, w]) == Insert(key, a, [w]) by {
      assert [a, w][1..] == [w];
    }
    assert Insert(key, a, [w]) == [w] + Insert(key, a, []) by {
      assert [w][1..] == [];
    }
  }

  /** No token of `ts` is less than `x`. */
  predicate NoneBelow(key: string -> SortKey, x: string, ts: seq<string>) {
    forall y :: y in ts ==> !KeyLess(key(y), key(x))
  }

  lemma SortedCons(key: string -> SortKey, x: string, ts: seq<string>)
    ensures Sorted(key, [x] + ts) <==> NoneBelow(key, x, ts) && Sorted(key, ts)
  {
    var r := [x] + ts;
    if NoneBelow(key, x, ts) && Sorted(key, ts) {
      forall i, j | 0 <= i < j < |r| ensures !KeyLess(key(r[j]), key(r[i])) {
        if i > 0 { assert r[i] == ts[i - 1] && r[j] == ts[j - 1]; } else { assert r[j] in ts; }
      }
    }
    if Sorted(key, r) {
      forall y | y in ts ensures !KeyLess(key(y), key(x)) {
        var k :| 0 <= k < |ts| && ts[k] == y;
        assert r[0] == x && r[k + 1] == y;
      }
      forall i, j | 0 <= i < j < |ts| ensures !KeyLess(key(ts[j]), key(ts[i])) {
        assert r[i + 1] == ts[i] && r[j + 1] == ts[j];
      }
    }
  }

  lemma {:induction false} InsertSorted(key: string -> SortKey, x: string, ts: seq<string>)
    requires Sorted(key, ts)
    ensures Sorted(key, Insert(key, x, ts))
    decreases |ts|
  {
    if ts == [] {
    } else {
      assert ts == [ts[0]] + ts[1..];
      SortedCons(key, ts[0], ts[1..]);
      if !KeyLess(key(ts[0]), key(x)) {
        KeyLessIrreflexive(key(ts[0]));
        forall y | y in ts ensures !KeyLess(key(y), key(x)) {
          if KeyLess(key(y), key(x)) {
            if KeyLess(key(x), key(ts[0])) {
              KeyLessTransitive(key(y), key(x), key(ts[0]));
            } else {
              KeyLessTotal(key(x), key(ts[0]));
            }
          }
        }
        SortedCons(key, x, ts);
      } else {
        var rest := Insert(key, x, ts[1..]);
        InsertSorted(key, x, ts[1..]);
        forall y | y in rest ensures !KeyLess(key(y), key(ts[0])) {
          assert y in multiset(rest);
          if y == x {
            if KeyLess(key(x), key(ts[0])) {
              KeyLessTransitive(key(x), key(ts[0]), key(x));
              KeyLessIrreflexive(key(x));
            }
          } else {
            assert y in multiset(ts[1..]);
          }
        }
        SortedCons(key, ts[0], rest);
      }
    }
  }

  /** Inserting `x` puts it first among the tokens with its key. */
  lemma {:induction false} InsertFilter(key: string -> SortKey, x: string, ts: seq<string>, k: SortKey)
    ensures Filter(key, Insert(key, x, ts), k) == (if key(x) == k then [x] else []) + Filter(key, ts, k)
    decreases |ts|
  {
    var r := Insert(key, x, ts);
    if ts != [] && KeyLess(key(ts[0]), key(x)) {
      InsertFilter(key, x, ts[1..], k);
      KeyLessIrreflexive(key(x));
      assert r[0] == ts[0] && r[1..] == Insert(key, x, ts[1..]);
      assert Filter(key, r, k) == (if key(ts[0]) == k then [ts[0]] else []) + Filter(key, r[1..], k);
    } else {
      assert r == [x] + ts;
      assert r[0] == x && r[1..] == ts;
    }
  }

  /** The insertion sort sorts. */
  lemma {:induction false} StableSortSorted(key: string -> SortKey, ts: seq<string>)
    ensures Sorted(key, StableSort(key, ts))
    decreases |ts|
  {
    if ts != [] {
      StableSortSorted(key, ts[1..]);
      InsertSorted(key, ts[0], StableSort(key, ts[1..]));
    }
  }

  /** The insertion sort is stable: the tokens of each key keep their order. */
  lemma {:induction false} StableSortStable(key: string -> SortKey, ts: seq<string>, k: SortKey)
    ensures Filter(key, StableSort(key, ts), k) == Filter(key, ts, k)
    decreases |ts|
  {
    if ts != [] {
      StableSortStable(key, ts[1..], k);
      InsertFilter(key, ts[0], StableSort(key, ts[1..]), k);
    }
  }

  /** Sorting sorted tokens changes nothing. */
  lemma {:induction false} StableSortOfSorted(key: string -> SortKey, ts: seq<string>)
    requires Sorted(key, ts)
    ensures StableSort(key, ts) == ts
    decreases |ts|
  {
    if ts != [] {
      assert ts == [ts[0]] + ts[1..];
      SortedCons(key, ts[0], ts[1..]);
      StableSortOfSorted(key, ts[1..]);
      if |ts| > 1 {
        assert ts[1] in ts[1..];
      }
    }
  }

  lemma {:induction false} FilterMember(key: string -> SortKey, ts: seq<string>, k: SortKey, t: string)
    ensures t in Filter(key, ts, k) <==> t in ts && key(t) == k
    decreases |ts|
  {
    if ts != [] {
      FilterMember(key, ts[1..], k, t);
      assert ts == [ts[0]] + ts[1..];
    }
  }

  /** A sorted arrangement that keeps the order of every key's tokens is the
      insertion sort's result: `sort.SliceStable` has exactly one possible outcome. */
  lemma StableSortUnique(key: string -> SortKey, r: seq<string>, ts: seq<string>)
    requires Sorted(key, r)
    requires forall k :: Filter(key, r, k) == Filter(key, ts, k)
    ensures r == StableSort(key, ts)
  {
    var s := StableSort(key, ts);
    StableSortSorted(key, ts);
    forall k ensures Filter(key, s, k) == Filter(key, r, k) {
      StableSortStable(key, ts, k);
    }
    SortedFiltersUnique(key, r, s);
  }

  /** A non-empty list has a token with the key of its first token. */
  lemma FilterHead(key: string -> SortKey, ts: seq<string>)
    ensures ts != [] ==> Filter(key, ts, key(ts[0])) != []
  {
  }

  lemma {:induction false} SortedFiltersUnique(key: string -> SortKey, r: seq<string>, s: seq<string>)
    requires Sorted(key, r) && Sorted(key, s)
    requires forall k :: Filter(key, r, k) == Filter(key, s, k)
    ensures r == s
    decreases |r|
  {
    if r == [] || s == [] {
      FilterHead(key, r);
      FilterHead(key, s);
    } else {
      assert Filter(key, r, key(r[0])) == Filter(key, s, key(r[0]));
      assert Filter(key, r, key(s[0])) == Filter(key, s, key(s[0]));
      SortedHeadsAgree(key, r, s);
      SortedCons(key, r[0], r[1..]);
      SortedCons(key, s[0], s[1..]);
      forall k ensures Filter(key, r[1..], k) == Filter(key, s[1..], k) {
        var h := if key(r[0]) == k then [r[0]] else [];
        assert Filter(key, r, k) == h + Filter(key, r[1..], k);
        assert Filter(key, s, k) == h + Filter(key, s[1..], k);
        assert (h + Filter(key, r[1..], k))[|h|..] == Filter(key, r[1..], k);
        assert (h + Filter(key, s[1..], k))[|h|..] == Filter(key, s[1..], k);
      }
      SortedFiltersUnique(key, r[1..], s[1..]);
      assert r == [r[0]] + r[1..] && s == [s[0]] + s[1..];
    }
  }

  /** Two non-empty sorted arrangements with the same tokens under the keys of
      their first tokens start with the same token. */
  lemma SortedHeadsAgree(key: string -> SortKey, r: seq<string>, s: seq<string>)
    requires r != [] && s != []
    requires Sorted(key, r) && Sorted(key, s)
    requires Filter(key, r, key(r[0])) == Filter(key, s, key(r[0]))
    requires Filter(key, r, key(s[0])) == Filter(key, s, key(s[0]))
    ensures r[0] == s[0]
  {
    var k0 := key(r[0]);
    assert Filter(key, r, k0)[0] == r[0] by {
      assert Filter(key, r, k0) == [r[0]] + Filter(key, r[1..], k0);
    }
    if key(s[0]) != k0 {
      FilterMember(key, r, key(s[0]), s[0]);
      FilterMember(key, s, key(s[0]), s[0]);
      FilterMember(key, s, k0, r[0]);
      FilterMember(key, r, k0, r[0]);
      var i :| 0 <= i < |r| && r[i] == s[0];
      var j :| 0 <= j < |s| && s[j] == r[0];
      assert i > 0 && j > 0;
      assert !KeyLess(key(r[i]), key(r[0])) && !KeyLess(key(s[j]), key(s[0]));
      KeyLessTotal(k0, key(s[0]));
    }
    assert Filter(key, s, k0)[0] == s[0] by {
      assert Filter(key, s, k0) == [s[0]] + Filter(key, s[1..], k0);
    }
  }

  lemma {:induction false} DistinctCounts(ts: seq<string>)
    ensures Distinct(ts) <==> forall t :: multiset(ts)[t] <= 1
    decreases |ts|
  {
    if ts != [] {
      DistinctCounts(ts[1..]);
      assert ts == [ts[0]] + ts[1..];
      assert multiset(ts) == multiset{ts[0]} + multiset(ts[1..]);
      if Distinct(ts) {
        assert Distinct(ts[1..]) by {
          forall i, j | 0 <= i < j < |ts[1..]| ensures ts[1..][i] != ts[1..][j] {
            assert ts[1..][i] == ts[i + 1] && ts[1..][j] == ts[j + 1];
          }
        }
        assert ts[0] !in ts[1..];
      }
      if forall t :: multiset(ts)[t] <= 1 {
        assert multiset(ts[1..])[ts[0]] == 0;
        assert forall t :: multiset(ts[1..])[t] <= multiset(ts)[t];
        forall i, j | 0 <= i < j < |ts| ensures ts[i] != ts[j] {
          if i == 0 {
            assert ts[j] in ts[1..];
          } else {
            assert ts[1..][i - 1] == ts[i] && ts[1..][j - 1] == ts[j];
          }
        }
      }
    }
  }

  /** Rearranging distinct tokens leaves them distinct. */
  lemma DistinctPermutation(a: seq<string>, b: seq<string>)
    requires Distinct(a) && multiset(a) == multiset(b)
    ensures Distinct(b)
  {
    DistinctCounts(a);
    DistinctCounts(b);
  }

  /** Distinct tokens have nothing to drop. */
  lemma {:induction false} DedupOfDistinct(ts: seq<string>)
    requires Distinct(ts)
    ensures Dedup(ts) == ts
    decreases |ts|
  {
    if ts != [] {
      var init := ts[..|ts| - 1];
      assert Distinct(init) by {
        forall i, j | 0 <= i < j < |init| ensures init[i] != init[j] {
          assert init[i] == ts[i] && init[j] == ts[j];
        }
      }
      DedupOfDistinct(init);
      assert ts[|ts| - 1] !in init;
      assert ts == init + [ts[|ts| - 1]];
    }
  }

  /** `sortTWClassString` without its `${` branch, whose result is discarded: the
      distinct tokens, stable-sorted by the comparator and joined with spaces. */
  function SortedClassString(variantOrder: map<string, int>, classOrder: seq<string>, s: string): string {
    var fields := Fields(s);
    if |fields| == 0 then ""
    else Join(StableSort(TokenKeys(variantOrder, classOrder), Dedup(fields)), " ")
  }

  /** `sortTWClassString`: the deduplicating loop with its `seen` set, the stable
      sort, and the join. */
  method SortClassString(config: Config, s: string) returns (r: string)
    ensures r == SortedClassString(config.VariantOrder, config.ClassOrder, s)
  {
    var fields := Fields(s);
    if |fields| == 0 {
      return "";
    }
    var seen: set<string> := {};
    var unique: seq<string> := [];
    for k := 0 to |fields|
      invariant unique == Dedup(fields[..k])
      invariant forall t :: t in seen <==> t in unique
    {
      var token := fields[k];
      assert fields[..k + 1][..k] == fields[..k];
      if token !in seen {
        seen := seen + {token};
        unique := unique + [token];
      }
    }
    assert fields[..|fields|] == fields;
    unique := StableSort(TokenKeys(config.VariantOrder, config.ClassOrder), unique);
    r := Join(unique, " ");
  }

  /** The output is empty exactly when the input is blank. */
  lemma SortedClassStringBlank(variantOrder: map<string, int>, classOrder: seq<string>, s: string)
    ensures SortedClassString(variantOrder, classOrder, s) == "" <==> AllSpace(s)
  {
    FieldsEmptyIffAllSpace(s);
    SortedClassStringTokens(variantOrder, classOrder, s);
    var r := SortedClassString(variantOrder, classOrder, s);
    if |Fields(s)| > 0 {
      assert Fields(s)[0] in Fields(r);
      assert Fields("") == [];
    }
  }

  /** The output's tokens are the input's distinct tokens, each once, in the sort's
      order, and the output is exactly those tokens joined by single spaces. */
  lemma SortedClassStringTokens(variantOrder: map<string, int>, classOrder: seq<string>, s: string)
    ensures var r := SortedClassString(variantOrder, classOrder, s);
            && Fields(r) == StableSort(TokenKeys(variantOrder, classOrder), Dedup(Fields(s)))
            && r == Join(Fields(r), " ")
            && Distinct(Fields(r))
            && forall t :: t in Fields(r) <==> t in Fields(s)
  {
    var key := TokenKeys(variantOrder, classOrder);
    var fields := Fields(s);
    var unique := Dedup(fields);
    var sorted := StableSort(key, unique);
    assert forall t :: t in sorted <==> t in unique by {
      forall t ensures t in sorted <==> t in unique {
        assert t in sorted <==> t in multiset(sorted);
      }
    }
    if |fields| == 0 {
      assert Fields("") == [];
    } else {
      assert AreWords(sorted) by {
        forall i | 0 <= i < |sorted| ensures |sorted[i]| > 0 && NoSpace(sorted[i]) {
          assert sorted[i] in fields;
        }
      }
      FieldsOfJoin(sorted);
    }
    DistinctPermutation(unique, sorted);
  }

  /** The output's tokens are sorted by the comparator, and tokens the comparator
      ties keep the order in which they first appear in the input. */
  lemma SortedClassStringOrdered(variantOrder: map<string, int>, classOrder: seq<string>, s: string)
    ensures var key := TokenKeys(variantOrder, classOrder);
            var tokens := Fields(SortedClassString(variantOrder, classOrder, s));
            && Sorted(key, tokens)
            && forall k :: Filter(key, tokens, k) == Filter(key, Dedup(Fields(s)), k)
  {
    var key := TokenKeys(variantOrder, classOrder);
    SortedClassStringTokens(variantOrder, classOrder, s);
    StableSortSorted(key, Dedup(Fields(s)));
    forall k ensures Filter(key, StableSort(key, Dedup(Fields(s))), k) == Filter(key, Dedup(Fields(s)), k) {
      StableSortStable(key, Dedup(Fields(s)), k);
    }
  }

  /** Sorting a sorted class list changes nothing. */
  lemma SortedClassStringIdempotent(variantOrder: map<string, int>, classOrder: seq<string>, s: string)
    ensures var r := SortedClassString(variantOrder, classOrder, s);
            SortedClassString(variantOrder, classOrder, r) == r
  {
    var key := TokenKeys(variantOrder, classOrder);
    var r := SortedClassString(variantOrder, classOrder, s);
    SortedClassStringTokens(variantOrder, classOrder, s);
    var tokens := Fields(r);
    if |tokens| > 0 {
      DedupOfDistinct(tokens);
      StableSortSorted(key, Dedup(Fields(s)));
      StableSortOfSorted(key, tokens);
    }
  }

  /** Two different words, the second sorting strictly before the first, come out
      of the sort swapped. */
  lemma SortedClassStringOfTwo(variantOrder: map<string, int>, classOrder: seq<string>, a: string, w: string)
    requires AreWords([a, w]) && a != w
    requires KeyLess(TokenKey(variantOrder, classOrder, w), TokenKey(variantOrder, classOrder, a))
    ensures SortedClassString(variantOrder, classOrder, a + " " + w) == w + " " + a
  {
    FieldsOfTwo(a, w);
    DedupOfDistinct([a, w]);
    StableSortSwap(TokenKeys(variantOrder, classOrder), a, w);
    assert Join([w, a], " ") == w + " " + a;
  }
}
