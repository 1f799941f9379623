# go-tailwind-sorter, modelled in Dafny

go-tailwind-sorter rewrites the `class="..."` attributes of template files so that
their Tailwind CSS class lists come out in a canonical order. This project models
the sorting engine and proves what it does:

- **Classifier** (`classifier.dfy`, `getClassProperty`). A token such as
  `md:hover:bg-red-500` is split on `:`. Its leading variant parts are either
  arbitrary `[...]` variants (order 99) or keys of the variant table. They are
  sorted by order and then by name. The rest of the token, joined back with `:`,
  is the utility. Its priority is the index of the first prefix in the class-order
  table that starts it.
- **Orderer** (`orderer.dfy`, `sortTWClassString`). The class list is split into
  whitespace-separated fields. Repeated tokens are dropped. The rest are
  stable-sorted by the three-part comparator: variant count, then variant orders
  position by position, then utility order. The result is joined with single
  spaces.
- **The `${` branch** (`template.dfy`). The branch of `sortTWClassString` that
  splits around `${...}` is modelled as written. It throws its result away, and on
  a `${` that no `}` follows it never returns (see Findings).
- **Extractor** (`extractor.dfy`, `processFileContent`). This is a hand-written
  scanner for the single pattern
  `((?:NAME1|NAME2|...))(\s*=\s*)(["'`])(.*?)(["'`])`. It follows Go's
  leftmost-first semantics: the leftmost match wins, then the first listed name
  that can match, greedy blanks, and the shortest content. With the corrected
  sort (the one without the `${` branch), every match has its class list
  replaced by the sorted one, and nothing else changes.
- **Processing as written** (`processing.dfy`, `processFileContent` with the
  recursive sort). The file comes back only when the sort returns on every
  matched class list. That fails already on the first run over an ordinary
  attribute such as `class="${c?'a':'b'}"`: the lazy content stops at the first
  quote, inside the template, and hands the sort `${c?`.
- **Extension filter** (`paths.dfy`, `fileHasValidExtension` over
  `filepath.Ext`).
- **Line and column mapping** (`utils.dfy`, `OffsetToLineCol`).
- **Configuration** (`config.dfy`). This covers the `Config` object, the built-in
  tables and the in-place `merge` of a user's settings.
- **Go string primitives** (`gostrings.dfy`): `strings.Fields`,
  `strings.Split`, `strings.Join`, `strings.HasPrefix`, and `<` on strings.

The library sorts `sort.Slice` and `sort.SliceStable` are modelled as insertion
sorts. The model proves that any sorted permutation of the variants is the same
sequence. It also proves that any sorted arrangement of the tokens that keeps
each key's tokens in their input order is the same sequence. So the choice of
algorithm does not matter.

## Model

| member | source | states |
|---|---|---|
| Config.Config.Default | internal/config/config.go:53-371 | The built-in configuration: the default class-order and variant tables, file patterns `[".html"]`, class attributes `["class"]` |
| Config.Config.Merge | internal/config/config.go:373-381 | Each of the user's file patterns and class attributes replaces the current list iff it is non-empty, otherwise the old list stays; the class-order and variant tables never change |
| Config.DefaultVariantOrderBelowArbitrary | internal/config/config.go:361-366 | Every default variant order lies in 0..44, strictly below the 99 of an arbitrary variant |
| Config.DefaultVariantNamesPlain | internal/config/config.go:361-366 | No default variant name is empty or starts with `[` |
| Config.DefaultClassOrderTableTwice | internal/config/config.go:125-303 | The default class order lists `"table"` twice, at indices 163 and 657 |
| Config.DefaultClassOrderFilterTwice | internal/config/config.go:199-339 | The default class order lists `"filter"` twice, at indices 340 and 788 |
| Config.DefaultClassOrderButton | internal/config/config.go:57-60 | Index 1 is `"btn"` and index 2 is `"btn-primary"`, which `"btn"` is a prefix of |
| GoStrings.Fields | internal/service/sorter.go:116 | `strings.Fields` yields only non-empty fields without white space |
| GoStrings.FieldsChars | internal/service/sorter.go:116 | Every character of every field is a character of the input |
| GoStrings.FieldsEmptyIffAllSpace | internal/service/sorter.go:116-119 | Fields finds nothing iff the input is all white space |
| GoStrings.FieldsOfJoin | internal/service/sorter.go:147 | Fields undoes a single-space join of words: `Fields(Join(ts, " ")) == ts` |
| GoStrings.FieldsLength | internal/service/sorter.go:116-147 | The fields plus one separator between each pair are never longer than the input |
| GoStrings.FieldsOfTwo | internal/service/sorter.go:116 | Two words joined by a space are its two fields |
| GoStrings.JoinLength | internal/service/sorter.go:147 | A single-space join is as long as its words plus one space between each pair |
| GoStrings.Join | internal/service/sorter.go:81 | `strings.Join` as a definition: the parts with the separator between each pair, `""` for no parts; `GoStrings.FieldsOfJoin` and `GoStrings.JoinLength` state what it gives |
| GoStrings.IndexOf | internal/service/sorter.go:64 | The first occurrence of a character: it is there, and not before |
| GoStrings.HasPrefix | internal/service/sorter.go:92 | `strings.HasPrefix` as a definition: the prefix is no longer than the string and equals its start |
| GoStrings.SplitAt | internal/service/sorter.go:64 | Splitting at the first `:` gives the text before it, followed by the parts of the text after it |
| GoStrings.Split | internal/service/sorter.go:64 | `strings.Split` on `:` yields at least one part, no part holds `:`, and joining the parts with `:` gives back the token |
| GoStrings.StrLessIrreflexive | internal/service/sorter.go:87 | Go's `<` on strings is irreflexive |
| GoStrings.StrLessTransitive | internal/service/sorter.go:87 | Go's `<` on strings is transitive |
| GoStrings.StrLessTotal | internal/service/sorter.go:87 | Of two different strings, one is `<` the other |
| GoStrings.StrLess | internal/service/sorter.go:87 | Go's `<` on strings as a definition: byte-wise, the first differing byte decides and a proper prefix comes first; the three lemmas above make it a strict total order |
| Classifier.VariantOf | internal/service/sorter.go:69-75 | A variant part keeps its name; an arbitrary `[...]` part gets order 99, a named one the table's order (the arbitrary test first) |
| Classifier.IsArbitraryVariant | internal/service/sorter.go:20 | The test `^\[.+?\]` as a definition: the part starts with `[`, and a `]` at index 2 or later follows with no newline before it (the lazy `.+?` needs one character, and `.` does not match a newline) |
| Classifier.IsVariant | internal/service/sorter.go:69-76 | A part is taken as a variant iff it passes the arbitrary test or is a key of the variant table; otherwise the loop breaks there |
| Classifier.Utility | internal/service/sorter.go:67-81 | As a definition: the parts from the utility index on, joined with `:`; `Classifier.UtilityIsRestOfToken` and `Classifier.AllVariantsUtilityIsLast` state what they are |
| Classifier.Collect | internal/service/sorter.go:68-80 | The variants appended by the loop, one per variant part, in order |
| Classifier.LeadingVariantCount | internal/service/sorter.go:67-80 | The parts before the count are all variants, and the part at the count, if any, is not |
| Classifier.CollectOneMore | internal/service/sorter.go:70-74 | One more loop iteration appends exactly the next part's variant |
| Classifier.GetClassProperty | internal/service/sorter.go:63-99 | The loop, sort and prefix search return the classification `ClassPropertyOf`: the sorted collected variants, the utility order and the original token |
| Classifier.ClassPropertyOf | internal/service/sorter.go:63-99 | As a definition: the sorted collected variants, the utility order of the utility, and the token itself; `Classifier.ClassPropertyVariants` and `Classifier.UtilityOrderOf` state their content |
| Classifier.FindUtilityOrder | internal/service/sorter.go:90-96 | The early-break prefix loop returns `UtilityOrderOf` |
| Classifier.UtilityOrderOf | internal/service/sorter.go:90-96 | The utility order is at most the table length; below it, the entry there is a prefix of the utility and no earlier entry is |
| Classifier.UtilityIsRestOfToken | internal/service/sorter.go:64-81 | When some part is not a variant, the first such part stops the scan, the utility is that part and every later part joined with `:`, and the variants plus the utility rejoined give the token |
| Classifier.AllVariantsUtilityIsLast | internal/service/sorter.go:67-81 | When every part is a variant, the last part is the utility and its variant is among the token's variants |
| Classifier.ClassPropertyVariants | internal/service/sorter.go:64-88 | The token's variants are a sorted permutation of its leading variant parts, each with order 99 if arbitrary or else the table's order |
| Classifier.InsertVariant | internal/service/sorter.go:83-88 | Insertion adds exactly one element to the multiset |
| Classifier.InsertVariantSorted | internal/service/sorter.go:83-88 | Insertion keeps variants sorted by (order, name) |
| Classifier.SortVariants | internal/service/sorter.go:83-88 | The sort returns a sorted permutation of the variants |
| Classifier.VariantLessIrreflexive | internal/service/sorter.go:83-88 | The variant comparator is irreflexive |
| Classifier.VariantLessTransitive | internal/service/sorter.go:83-88 | The variant comparator is transitive |
| Classifier.VariantLessTotal | internal/service/sorter.go:83-88 | Variants the comparator ties are equal, so the unstable sort has nothing to reorder arbitrarily |
| Classifier.VariantLess | internal/service/sorter.go:83-88 | The `sort.Slice` comparator as a definition: lower order first, and for equal orders the name smaller under Go's `<`; the three lemmas above make it a strict total order |
| Classifier.SortedHeadsEqual | internal/service/sorter.go:83-88 | Two sorted permutations of the same variants start with the same one |
| Classifier.SortedVariantsUnique | internal/service/sorter.go:83-88 | Two sorted permutations of the same variants are equal: `sort.Slice` has one possible outcome |
| Classifier.ShadowedEntryNeverChosen | internal/service/sorter.go:90-96 | A class-order entry that an earlier entry is a prefix of is never a utility order |
| Classifier.DefaultShadowedEntries | internal/config/config.go:60-339 | Under the default table, indices 2 (`btn-primary`), 657 (second `table`) and 788 (second `filter`) are never a utility order |
| Classifier.ArbitraryVariantAfterNamed | internal/service/sorter.go:69-87 | Under the default table, every named variant sorts before every arbitrary `[...]` variant |
| Orderer.OrdersOf | internal/service/sorter.go:138-142 | The variant orders the comparator compares, position by position |
| Orderer.TokenKey | internal/service/sorter.go:132 | As a definition: what the comparator reads of `getClassProperty`'s result for a token, its variants' orders in sorted order and its utility order |
| Orderer.OrdersLess | internal/service/sorter.go:138-144 | The comparator's loop as a definition: the first position whose orders differ decides, and equal orders throughout leave it to the utility order; `Orderer.OrdersLessIsLexicographic` states it is lexicographic |
| Orderer.KeyLess | internal/service/sorter.go:131-145 | The `sort.SliceStable` comparator as a definition: fewer variants first, otherwise the loop; `Orderer.KeyLessIsLexicographic` and the three lemmas below make it a strict total order on keys |
| Orderer.OrdersLessIsLexicographic | internal/service/sorter.go:134-144 | For equal variant counts, the comparator's loop is the lexicographic order on the variant orders followed by the utility order |
| Orderer.KeyLessIsLexicographic | internal/service/sorter.go:131-145 | The whole comparator is the lexicographic order on (variant count, variant orders..., utility order) |
| Orderer.OrdersLessIrreflexive | internal/service/sorter.go:138-144 | The variant-order loop is irreflexive |
| Orderer.OrdersLessTransitive | internal/service/sorter.go:138-144 | The variant-order loop is transitive |
| Orderer.OrdersLessTotal | internal/service/sorter.go:138-144 | The loop ties only identical orders and utility orders |
| Orderer.KeyLessIrreflexive | internal/service/sorter.go:131-145 | The comparator is irreflexive |
| Orderer.KeyLessTransitive | internal/service/sorter.go:131-145 | The comparator is transitive |
| Orderer.KeyLessTotal | internal/service/sorter.go:131-145 | The comparator ties exactly the tokens with equal keys |
| Orderer.Dedup | internal/service/sorter.go:121-129 | The deduplicated list is distinct and holds exactly the tokens of its input; `Orderer.DedupFirstSeen` states their order |
| Orderer.DedupFirstSeen | internal/service/sorter.go:121-129 | The deduplicated tokens come in the order of their first occurrences in the input, so the result is the input's distinct tokens listed by first appearance |
| Orderer.DedupOfDistinct | internal/service/sorter.go:121-129 | Deduplicating distinct tokens changes nothing |
| Orderer.DistinctCounts | internal/service/sorter.go:121-129 | Tokens are distinct iff each occurs at most once in their multiset |
| Orderer.DistinctPermutation | internal/service/sorter.go:121-131 | A permutation of distinct tokens is distinct |
| Orderer.Insert | internal/service/sorter.go:131 | Insertion adds exactly one token to the multiset |
| Orderer.StableSort | internal/service/sorter.go:131 | The stable sort returns a permutation of its input |
| Orderer.InsertSorted | internal/service/sorter.go:131-145 | Insertion keeps tokens sorted under the comparator |
| Orderer.InsertFilter | internal/service/sorter.go:131 | Insertion puts the token ahead of every token with its key and keeps each key's tokens in order |
| Orderer.StableSortSorted | internal/service/sorter.go:131-145 | The stable sort's result is sorted |
| Orderer.StableSortStable | internal/service/sorter.go:131 | For every key, the sort keeps that key's tokens in input order |
| Orderer.StableSortOfSorted | internal/service/sorter.go:131 | Sorting sorted tokens changes nothing |
| Orderer.FilterMember | internal/service/sorter.go:131 | A token is among a key's tokens iff it is present and has that key |
| Orderer.SortedHeadsAgree | internal/service/sorter.go:131 | Two sorted arrangements with the same tokens per key start with the same token |
| Orderer.SortedFiltersUnique | internal/service/sorter.go:131 | Two sorted arrangements with the same tokens per key, in the same order, are equal |
| Orderer.StableSortUnique | internal/service/sorter.go:131 | Any sorted arrangement that keeps every key's tokens in input order is the stable sort's result: `sort.SliceStable` has one possible outcome |
| Orderer.SortClassString | internal/service/sorter.go:101-148 | The field split, the dedup loop with its `seen` set, the stable sort and the join return `SortedClassString` |
| Orderer.SortedClassString | internal/service/sorter.go:116-147 | The corrected `sortTWClassString` as a definition: `""` for a blank list, otherwise the deduplicated fields stable-sorted by the comparator and joined with single spaces; the lemmas below state what the output is |
| Orderer.SortedClassStringBlank | internal/service/sorter.go:116-119 | The output is empty iff the input is blank |
| Orderer.SortedClassStringTokens | internal/service/sorter.go:116-147 | The output's fields are the input's distinct fields, stable-sorted; each appears once; the output is exactly those fields joined by single spaces |
| Orderer.SortedClassStringOrdered | internal/service/sorter.go:131-147 | The output's tokens are sorted by the comparator, and tokens it ties keep their first-seen input order |
| Orderer.SortedClassStringIdempotent | internal/service/sorter.go:116-147 | For the corrected sort, which leaves out the `${` branch, sorting an already sorted class list returns it unchanged. The sort as written is not idempotent (second Findings row) |
| Orderer.VariantCountOfToken | internal/service/sorter.go:134-136 | The comparator's first criterion, the number of variants, is the number of leading variant parts of the token |
| Orderer.StableSortSwap | internal/service/sorter.go:131-145 | Two tokens, the second strictly less than the first, come out of the stable sort swapped |
| Orderer.SortedClassStringOfTwo | internal/service/sorter.go:116-147 | A class list of two different words, the second strictly less than the first, sorts to the two words swapped |
| Template.FirstMatch | internal/service/sorter.go:21 | The leftmost match of `\$\{[^}]*\}` at or after an index, or none if there is no match |
| Template.MatchEnd | internal/service/sorter.go:21 | A match ends just past the first `}` after its `${` |
| Template.TemplateParts | internal/service/sorter.go:103 | The split yields at least one piece |
| Template.SortAsWritten | internal/service/sorter.go:101-148 | `sortTWClassString` as written, as a definition: `None` when out of fuel, or when the list holds `${` and some piece of its split does not return within one level less; otherwise the plain field sort, since the pieces' results are discarded |
| Template.PiecesReturn | internal/service/sorter.go:108-113 | As a definition: the loop's recursive call returns on every piece of the split |
| Template.SortAsWrittenIsPlainSort | internal/service/sorter.go:101-116 | Whenever the recursive branch returns, it returns the plain field sort of the whole list: the pieces' results are discarded |
| Template.UnclosedPiece | internal/service/sorter.go:103 | A list with a `${` that no `}` follows has a piece with the same defect |
| Template.ClosedPieces | internal/service/sorter.go:103 | Without such a `${`, no piece contains `${` at all |
| Template.StuckPiece | internal/service/sorter.go:108-109 | A call whose list holds `${` cannot return before every piece's call has returned |
| Template.UnclosedTemplateDiverges | internal/service/sorter.go:102-114 | With a `${` that no `}` follows, the call never returns, whatever the stack depth |
| Template.UnclosedTemplateExample | internal/service/sorter.go:102-114 | `a ${b` never returns |
| Template.ClosedTemplateReturns | internal/service/sorter.go:102-116 | Every other list returns within two nested calls, and returns the plain field sort |
| Template.FewerVariantsFirst | internal/service/sorter.go:134-136 | A token `v:u` whose first part is a variant and whose second is not sorts after a token `w` that is no variant |
| Template.SortOpensTemplate | internal/service/sorter.go:101-148 | With `hover` a variant and `${x`, `b}` not, the closed template `hover:${x b}` returns `b} hover:${x`, and sorting that output again never returns |
| Template.DefaultSortOpensTemplate | internal/service/sorter.go:101-148 | Under the default variant table and any class order, the first run over `hover:${x b}` returns `b} hover:${x`, and a second run over it never returns |
| Extractor.SpaceRun | internal/service/sorter.go:33 | Greedy `\s*` takes every `\s` character and stops at the first other one |
| Extractor.StopFrom | internal/service/sorter.go:33 | The first quote or newline at or after an index, or the end of the text |
| Extractor.AssignEnd | internal/service/sorter.go:33 | Where `\s*=\s*` ends: the text matched is one `=` with blanks around it, followed by a non-blank |
| Extractor.AssignEndFinds | internal/service/sorter.go:33 | Any assignment that occurs there and is followed by a non-blank is the one the scanner finds |
| Extractor.ContentEnd | internal/service/sorter.go:33 | The lazy `(.*?)` stops at the first quote, which closes the match; its content holds no quote or newline |
| Extractor.ContentEndFinds | internal/service/sorter.go:33 | A content without newline followed by a quote bounds where the lazy group stops, and equals it when it holds no quote |
| Extractor.MatchNameSound | internal/service/sorter.go:33 | What the scanner finds for an alternative is a match of the pattern with that name and a quote-free content |
| Extractor.MatchNameFinds | internal/service/sorter.go:33 | When the pattern can match an alternative, the scanner finds a match with the same assignment and opening quote and content no longer |
| Extractor.MatchNameFindsPlain | internal/service/sorter.go:33 | A match whose content holds no quote is exactly what the scanner finds |
| Extractor.MatchNameIffCanMatch | internal/service/sorter.go:33 | The scanner succeeds for an alternative iff the pattern can match with it |
| Extractor.MatchName | internal/service/sorter.go:33 | One alternative of the pattern as a definition: the name occurs at the index, then `\s*=\s*` with greedy blanks, a quote, the lazy content up to the first quote or newline, and that stop must be a quote; `Extractor.MatchNameSound`, `Extractor.MatchNameFinds` and `Extractor.MatchNameIffCanMatch` state what it finds |
| Extractor.MatchAt | internal/service/sorter.go:33 | A match found at a position uses one of the names, is a match of the pattern, and has quote-free content |
| Extractor.MatchAtNoneIff | internal/service/sorter.go:33 | Nothing is found at a position iff no alternative can match there |
| Extractor.MatchAtFirstAlternative | internal/service/sorter.go:33 | The alternative taken is the first listed one that can match |
| Extractor.MatchAtShortestContent | internal/service/sorter.go:33 | The content taken is the shortest any match of that alternative allows |
| Extractor.Alternatives | internal/service/sorter.go:33 | The alternatives are the configured names in their configured order, which leftmost-first alternation follows; an empty list gives the single empty alternative |
| Extractor.Step | internal/service/sorter.go:151 | One scan step at an index gives a gap holding the character there iff nothing matches there, otherwise the match the pattern picks |
| Extractor.Scan | internal/service/sorter.go:151 | Successive non-overlapping matches: the pieces spell the scanned text, each starts where the previous ends, and each is what the pattern gives at its index |
| Extractor.ScanHitsPlain | internal/service/sorter.go:151 | Every matched content holds no quote or newline, and every match ends in a quote |
| Extractor.MatchAtOnPrefix | internal/service/sorter.go:152 | The pattern tried on the start of a match's own text finds the same match |
| Extractor.RematchFindsSameGroups | internal/service/sorter.go:152 | `FindSubmatch` on a match's text finds that whole match again, so the callback reads the groups the scan found |
| Extractor.RewritePiece | internal/service/sorter.go:151-153 | Bytes outside matches are kept; a match keeps its name, assignment and both quotes and gets its content replaced by the sorted class list |
| Extractor.Rewrite | internal/service/sorter.go:151-154 | As a definition: the callback applied to every piece of the scan |
| Extractor.SortedContentPlain | internal/service/sorter.go:153 | The sorted class list of a quote-free, newline-free content is quote-free and newline-free |
| Extractor.HitTextsAgree | internal/service/sorter.go:153 | Two matches with the same frame and quote-free contents that spell the same text, each followed by some text, are the same match followed by the same text |
| Extractor.RenderEqualIff | internal/service/sorter.go:150-154 | Piece lists that differ at most in quote-free match contents spell the same text iff they are equal |
| Extractor.RewriteUnchangedIff | internal/service/sorter.go:150-154 | Rewriting leaves the text unchanged iff every matched class list is already sorted |
| Extractor.ProcessFileContent | internal/service/sorter.go:150-155 | The file comes back unchanged iff every matched class list is already in sorted form |
| Extractor.MixedQuotesMatch | internal/service/sorter.go:33 | The opening and closing quotes are matched independently: `class="x'` is one match with content `x` |
| Processing.RewritePieceAsWritten | internal/service/sorter.go:151-154 | The callback with the sort as written, as a definition: a gap is kept; a match gets its content replaced by the sort's result, or gives `None` when the sort does not return within the fuel |
| Processing.RewriteAsWritten | internal/service/sorter.go:151-154 | As a definition: the callback on every piece in turn; one call that does not return stops the whole rewrite |
| Processing.ProcessAsWritten | internal/service/sorter.go:150-155 | `processFileContent` as written, as a definition: the scan, then the rewrite as written, written out |
| Processing.RewriteAsWrittenIsRewrite | internal/service/sorter.go:101-116 | The rewrite as written finishes iff the sort as written returns on every matched class list, and then it equals the rewrite with the corrected sort |
| Processing.ProcessAsWrittenAgrees | internal/service/sorter.go:150-155 | Whenever `processFileContent` as written returns, it returns what `Extractor.ProcessFileContent` returns |
| Processing.ProcessAsWrittenReturnsIff | internal/service/sorter.go:101-155 | `processFileContent` as written returns (within two nested sort calls) iff no matched class list holds a `${` that no `}` follows |
| Processing.ProcessAsWrittenDiverges | internal/service/sorter.go:101-155 | A file in which some matched class list holds a `${` that no `}` follows never comes back, whatever the fuel |
| Processing.MatchOnFront | internal/service/sorter.go:33 | A match that fits and has quote-free content is what a one-name pattern finds at the start of any text beginning with it |
| Processing.FirstPieceIsMatch | internal/service/sorter.go:151 | The scan's first piece is the match found at index 0 |
| Processing.ConditionalAttributeMatch | internal/service/sorter.go:33 | In `class="${c?'a':'b'}"` the first match has the content `${c?` and closes at the quote after it |
| Processing.ConditionalAttributeDiverges | internal/service/sorter.go:101-155 | `processFileContent` as written never returns on `class="${c?'a':'b'}"`, under any tables and any fuel |
| Paths.ExtBefore | internal/service/sorter.go:158 | The backward scan of `filepath.Ext` started at index `i`. Its result is either empty, when every `.` of `path[..i]` has a `/` of `path[..i]` after it, or the suffix of the whole path from the last `.` of `path[..i]` that no `/` or `.` of `path[..i]` follows. At `i == |path|` this is the extension |
| Paths.Ext | internal/service/sorter.go:158 | `filepath.Ext` as a definition: the backward scan from the end of the path; `Paths.ExtShape` and `Paths.ExtOfSuffix` state what it returns |
| Paths.ExtShape | internal/service/sorter.go:158 | `filepath.Ext` returns a suffix of the path that is empty or a `.` followed by neither `/` nor `.`, and is empty iff every `.` lies behind a `/` |
| Paths.ExtOfSuffix | internal/service/sorter.go:158 | A path ending in an extension has that extension, whatever comes before it |
| Paths.FileHasValidExtension | internal/service/sorter.go:157-167 | The search loop answers true iff the path's extension is exactly one of the file patterns |
| Paths.DefaultPatternsExamples | internal/config/config.go:368 | Under the default patterns `page.html` qualifies, while `page.html.bak` and `templates/page` do not |
| Utils.Newlines | internal/utils/utils.go:18-23 | The number of newlines in a text, at most its length |
| Utils.LastNewline | internal/utils/utils.go:21 | The index of the last newline in a text, or -1 when there is none |
| Utils.Clamp | internal/utils/utils.go:14-16 | An offset past the end becomes the content length; any other offset is kept |
| Utils.LineCol | internal/utils/utils.go:10-28 | Line and column are both at least 1 |
| Utils.OffsetToLineCol | internal/utils/utils.go:10-28 | The loop returns line = 1 + newlines before the clamped offset and col = offset minus the last newline's index (-1 if none) |
| Utils.LineColStart | internal/utils/utils.go:11-25 | Offset 0 is line 1, column 1 |
| Utils.LineColStep | internal/utils/utils.go:18-25 | One byte on: past a newline is column 1 of the next line, past any other byte is the next column of the same line |
| Utils.LineColClamped | internal/utils/utils.go:14-16 | Any offset past the end reports the position of the end |
| Utils.LineMonotone | internal/utils/utils.go:18-23 | The line never decreases as the offset grows |
| Utils.ColumnIsLineOffset | internal/utils/utils.go:21-25 | The column counts the bytes since the line began: the `col - 1` bytes before the offset hold no newline, and the byte before them, if any, is one |

## Left out

- `Sorter.Run`, `worker`, `findFiles`, `printSummary`, the `stderr` closure and
  `utils.PrintSummary` are left out. They are concurrency (goroutines, channels,
  a wait group), file-system walking, file reads and writes, and coloured terminal
  output.
- `config.New` is left out: it checks whether a file exists and decodes TOML
  through a foreign library. The decoded user settings enter the model as the
  `UserConfig` value that `Merge` takes.
- `cmd/root.go` is not part of this model. It is command-line wiring.
- `SorterServiceNew` (internal/service/sorter.go:32-50) is left out. The model
  takes the attribute names in place of the compiled pattern. A name is matched as
  a literal string: a regex metacharacter in a name is not interpreted, and the
  compile-error path of a malformed name is not modelled. No word boundary is
  assumed, as in the source, so `myclass="..."` also matches.
- Strings are byte strings: one Dafny `char` stands for one byte. Whitespace for
  `strings.Fields` is the ASCII set (space, `\t`, `\n`, `\v`, `\f`, `\r`).
  Non-ASCII Unicode white space is not modelled.
- `Orderer.SortClassString` omits the `${` branch. That branch's result is
  discarded, so on every input where the branch returns, the output is unchanged.
  The branch itself is modelled, as written, by `Template.SortAsWritten`.
- Orderer.SortedClassStringIdempotent: states idempotence of the corrected sort
  only. The sort as written is not idempotent on class lists that split a
  `${...}` across tokens; see the second Findings row.
- `Template.SortAsWritten` bounds the recursion with a fuel parameter; `None`
  stands for "has not returned within that depth". Go's real stack limit, and the
  crash when it is exceeded, are not modelled.
- `Paths.Ext` treats `/` as the only path separator, as `filepath.Ext` does on
  Unix. The Windows separator is not modelled.
- `sort.Slice` and `sort.SliceStable` are modelled as insertion-sort functions.
  Lemmas show that any sorted (for the stable sort: and key-stable) arrangement
  equals them. The library's in-place swaps on the slice are not modelled.
- `Classifier.GetClassProperty` and `Paths.FileHasValidExtension` read the
  configuration object. The Go methods read it through the `Sorter` receiver; the
  `Sorter` struct itself is not modelled.
- Extractor.ProcessFileContent: uses the corrected sort. The source's
  `processFileContent` never returns on a file in which some matched class list
  holds a `${` that no `}` follows, such as `class="${c?'a':'b'}"`, whose lazy
  content is `${c?`. That behaviour is modelled by `Processing.ProcessAsWritten`
  (first Findings row).
- `Extractor.ProcessFileContent` works on a string, not a byte slice. The
  re-match by `FindSubmatch` inside the callback is shown by
  `Extractor.RematchFindsSameGroups` to find the same groups as the scan; the
  rewrite uses the scanned groups.
- `Utils.OffsetToLineCol` requires a non-negative offset. With a negative offset
  the Go slice expression panics.

## Findings

| source | as written | input that shows it | evidently intended | confidence | as-written member | corrected member |
|---|---|---|---|---|---|---|
| internal/service/sorter.go:102-114 | A class list containing `${` is split around every `${...}`, and each piece is sorted by a recursive call. A `${` that no `}` follows is not a match, so it stays inside a piece that again contains `${`. The split of such a piece returns it whole, and the function calls itself on its own input forever. | `a ${b`; in a file, the ordinary attribute `class="${c?'a':'b'}"`, whose lazy content `${c?` stops at the first quote, so `processFileContent` never returns on the first run (`Processing.ConditionalAttributeDiverges`) | The call returns the plain field sort of the list, as it does for every list where the branch terminates (its own result is discarded) | not executed | Template.UnclosedTemplateExample | Orderer.SortClassString |
| internal/service/sorter.go:101-148 | A consequence of the row above: the sort can turn a closed template into an unclosed one. Tokens with fewer variants come first, so `hover:${x b}` returns `b} hover:${x`, and there no `}` follows the `${` any more. A second run over a file the first run rewrote therefore never returns, and the sort is not idempotent | `hover:${x b}` under the default variant table, any class order | Sorting a sorted class list again returns it unchanged | not executed | Template.SortOpensTemplate | Orderer.SortedClassStringIdempotent |
