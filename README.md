# Tailwind class formatter, modelled in Dafny

This project models the formatting engine of a Tailwind CSS class sorter. The engine is the first 172 lines of `src/extension.ts`. It takes the value of a `class` attribute and returns the replacement text. It works in four steps:

1. **Splitting.** It splits the value on whitespace (`Text.Tokens`).
2. **Classifying.** It classifies each class into one of twelve categories, or `other`. The classifier strips the variant prefixes, then scans a fixed rule table in declaration order; the first match wins (`Classifier.Classify`).
3. **Responsive grouping.** Within each category it puts classes that share a base property into one cluster. Clusters appear in first-seen order, and each cluster is sorted stably by breakpoint weight (`Grouper.GroupResponsive`). The base property is the leading lowercase run after the variants (`ClassName.Property`). The weight is -1 for no breakpoint, then 0 to 4 for `sm`, `md`, `lg`, `xl`, `2xl` (`ClassName.BreakpointWeight`).
4. **Layout.** It lays out each category in `groupOrder`:
   - With a width of 0, each cluster gets its own line.
   - Otherwise the clusters are packed greedily into lines no longer than the width. The first line of a category uses the class indent; continuation lines use the wrap indent.
   - Finally it wraps the lines in a leading newline and, optionally, a trailing newline plus the attribute indent (`Formatter.Format`).

Modules, one concern each:

- `Text`: JavaScript whitespace, `split(/\s+/)`, `join` and the facts that connect them.
- `ClassName`: `getBaseClassName`, `getClassProperty`, `getBreakpoint` and `getBreakpointWeight`.
- `Classifier`: the rule table `tailwindGroups`, the emission order `groupOrder` and `classifyTailwindClass`.
- `Grouper`: `groupResponsiveClasses`. It has a specification on values (`Clusters`, built from `Keys`, `Bucket` and a stable `SortBy`), the method that follows the source's two loops, and the lemmas about the grouping.
- `Formatter`: `formatTailwindClasses`. Its specification is `FormatSpec`, with `CategoryLines` and the greedy `Pack`. The methods `Format`, `LayOutCategories`, `LayOutCategory` and `GroupInto` follow the source's loops over `lines`, `categoryLine` and `grouped`.
- `FormatProperties`: what the formatter preserves. It keeps every token, keeps the category order, respects the line width, and formatting its own output changes nothing.
- `WorkedExample`: the call `formatTailwindClasses("flex flex-col items-center", "", "  ", true, 0, "same")` computed symbolically.

The classification is a parameter (`classify`) of the layout functions, and `FormatSpec` instantiates it with `Classify`. Likewise, the grouping and the sort are stated for any key and weight function. The source's own functions are `Clusters(s) == ClustersBy(s, Property)` and `SortByWeight(s) == SortBy(s, BreakpointWeight)`.

Where the code and its documented intent differ, the model follows the code:

- **Bare-form rule.** The bare form of a rule is `prefix.replace('-', '')`. That removes the *first* hyphen, not a trailing one. So `min-w-` has the bare form `minw-` (`Classifier.BareFormOfMinW`), and `sr-only` has `sronly` (`Classifier.BareFormOfSrOnly`).
- **Classifier's variant regex.** It is `^([a-z0-9]+:)+(.+)$`. It always leaves at least one character, so a token that is only variants, such as `md:`, is matched as `md:` itself, while `getBaseClassName` reduces it to the empty string (`Classifier.LoneVariantDiverges`).
- **Bounded width.** Only a line that holds two or more clusters is kept within the width. The first cluster of a category, and any cluster that moves to a new line, opens a line whatever its length (`FormatProperties.BoundedBlock`). With an attribute indent of `""` and a width of 7, the cluster `p-4 md:p-8` gives the 12-character line `  p-4 md:p-8`, even though each of its classes is at most 7 long (`WorkedExample.OverWidthLine`).
- **Negative width.** The width is not checked. A negative width never flushes the last line of a category, so that line's clusters are lost (`FormatProperties.NegativeWidthDropsLastCluster`).
- **Width 0.** Each cluster gets its own line, including same-category clusters of different properties. `flex flex-col items-center` gives two lines, `flex flex-col` and `items-center` (`WorkedExample.WidthZeroExample`). A commented-out test in the repository expects one line.

## Model

| member | source | states |
|---|---|---|
| Text.Tokens | src/extension.ts:102 | every token is a non-empty run without whitespace; there are no tokens exactly when the input is all whitespace |
| Text.TokensAtBlank | src/extension.ts:102 | a non-empty whitespace run splits the token list in two: the tokens of what precedes it, then the tokens of what follows |
| Text.TokensOfWord | src/extension.ts:102 | a string without whitespace is its own single token |
| Text.JoinSplitRoundTrip | src/extension.ts:132 | splitting the space-join of whitespace-free classes gives back exactly those classes |
| Text.TokensOfJoin | src/extension.ts:167 | splitting lines joined with a whitespace separator gives the tokens of each line, in order |
| Text.IndexOf | src/extension.ts:44 | `indexOf` is -1 exactly when the element is absent; otherwise it is the element's first position |
| ClassName.BaseClassName | src/extension.ts:22-25 | the result is a suffix of the class and starts with no `[a-z0-9]+:` segment |
| ClassName.BaseClassNameIdempotent | src/extension.ts:22-25 | stripping the variants twice gives the same as stripping them once |
| ClassName.BaseClassNameNoVariant | src/extension.ts:24 | a class with no leading segment is unchanged |
| ClassName.BaseClassNameUnderVariant | src/extension.ts:24 | one more leading variant segment does not change the base class |
| ClassName.LeadingLetters | src/extension.ts:30-31 | the leading maximal run of lowercase letters, or the whole string when it does not start with one |
| ClassName.Property | src/extension.ts:27-32 | the property is a prefix of the base class: its maximal leading run of lowercase letters, or the whole base class when that starts with something else |
| ClassName.Breakpoint | src/extension.ts:34-38 | `Some(b)` only for `b` in `breakpointOrder` with the class starting `b:`; `None` exactly when no breakpoint starts the class |
| ClassName.BreakpointIsFirstSegment | src/extension.ts:36 | the breakpoint is the first variant segment when that segment names a breakpoint, and there is none otherwise |
| ClassName.BreakpointExamples | src/extension.ts:36 | `md:hover:pt-4` has breakpoint `md`; `sm:md:pt-4` has `sm` |
| ClassName.NoBreakpointExamples | src/extension.ts:36 | `dark:md:hover:pt-4` and `hover:bg-blue-500` have no breakpoint, because only the first prefix counts |
| ClassName.BreakpointWeight | src/extension.ts:40-45 | the weight is in -1..4; it is -1 exactly when there is no breakpoint; otherwise it is the breakpoint's index in `breakpointOrder` |
| ClassName.WeightOfBreakpointToken | src/extension.ts:40-45 | a class starting with the i-th breakpoint and a colon weighs i |
| ClassName.WeightsAscend | src/extension.ts:40-45 | for any class `t` without a breakpoint prefix (such as `p-4` or `hover:p-4`): `t` < `sm:t` < `md:t` < `lg:t` < `xl:t` < `2xl:t` by weight, strictly |
| Classifier.GroupRank | src/extension.ts:116 | the unique position of a category in `groupOrder` |
| Classifier.GroupOrderIsPermutation | src/extension.ts:116 | `groupOrder` lists every category, `other` included, exactly once |
| Classifier.TableHasNoOther | src/extension.ts:4-17 | no rule list belongs to `other`, so `other` arises only as the fallback |
| Classifier.MatchBase | src/extension.ts:79-80 | the classifier's base class is never longer than the class and is empty only for the empty class; it keeps a class containing a line terminator whole; otherwise it starts with no segment or is one whole segment |
| Classifier.MatchBaseUnderVariant | src/extension.ts:79-80 | a leading variant segment in front of a non-empty class without line terminators is removed |
| Classifier.LoneVariantDiverges | src/extension.ts:79-80 | for a class that is one segment such as `md:`, the classifier keeps it, while `getBaseClassName` gives `""` |
| Classifier.StripLeavingRestAgrees | src/extension.ts:79-80 | whenever `getBaseClassName` leaves something, stripping variant prefixes while leaving a non-empty rest gives the same string |
| Classifier.MatchBaseAgrees | src/extension.ts:79-80 | for a token without a line terminator, whenever `getBaseClassName` leaves something, the base the classifier matches on is that same string |
| Classifier.RemoveFirstHyphen | src/extension.ts:84 | `replace('-', '')`: unchanged without a hyphen, one character shorter with one |
| Classifier.RemoveFirstHyphenSplits | src/extension.ts:84 | only the first hyphen is removed: `a-b` gives `ab` for a hyphen-free `a`, whatever `b` holds |
| Classifier.BareFormOfMinW | src/extension.ts:84 | the bare form of `min-w-` is `minw-`, so a bare `min-w` matches no sizing rule |
| Classifier.BareFormOfSrOnly | src/extension.ts:84 | the bare form of `sr-only` is `sronly` |
| Classifier.AnyRuleMatches | src/extension.ts:83-84 | true exactly when some rule of the list matches by prefix or by bare form |
| Classifier.FirstMatch | src/extension.ts:82-88 | the index of the first table entry with a matching rule; no earlier entry matches; `None` when none does |
| Classifier.Classify | src/extension.ts:77-91 | `other` exactly when no rule of any category matches; otherwise the first category, in table order, with a matching rule |
| Classifier.EarlierEntryWins | src/extension.ts:82-88 | when a rule of entry i matches, the result is the category of entry i or of an earlier entry |
| Grouper.InsertBy | src/extension.ts:65-69 | inserting adds exactly the inserted class (multiset) |
| Grouper.InsertBySorted | src/extension.ts:65-69 | inserting into a sorted list keeps it sorted by weight |
| Grouper.InsertByStable | src/extension.ts:65-69 | inserting puts the class before the other classes of the same weight and keeps their order |
| Grouper.SortBy | src/extension.ts:65-69 | the sort is a permutation of its input |
| Grouper.SortBySorted | src/extension.ts:65-69 | the sort's result ascends by weight (`weightA - weightB`) |
| Grouper.SortByStable | src/extension.ts:65-69 | classes of equal weight keep their input order (a stable sort) |
| Grouper.SortByOfSorted | src/extension.ts:65-69 | sorting an already sorted list changes nothing |
| Grouper.Bucket | src/extension.ts:51-57 | the list under a key holds exactly the input classes with that key |
| Grouper.Keys | src/extension.ts:51-61 | the object's keys are distinct, and a key is present exactly when some class has it |
| Grouper.KeysGrowByAppending | src/extension.ts:51-61 | keys are in first-seen order: the keys of an input prefix are a prefix of the keys |
| Grouper.ClusterShape | src/extension.ts:47-75 | the i-th cluster is non-empty, has one property (the i-th key) and is sorted by weight, with the same classes per weight, in order, as the input |
| Grouper.ClustersShape | src/extension.ts:47-75 | one cluster per property; every cluster is non-empty, single-property and sorted; the properties are distinct |
| Grouper.ClustersCover | src/extension.ts:47-75 | the clusters together hold every input class exactly once |
| Grouper.ClustersArePermutation | src/extension.ts:47-75 | the concatenated clusters are a permutation of the input |
| Grouper.ClustersOfGrouped | src/extension.ts:47-75 | input already laid out as clusters (non-empty, one key each, sorted, keys distinct) is grouped back into exactly those clusters |
| Grouper.ClustersIdempotent | src/extension.ts:47-75 | grouping the concatenation of the clusters gives the same clusters |
| Grouper.GroupingIdempotent | src/extension.ts:47-75 | the same for `getClassProperty` as the key |
| Grouper.CollectBy | src/extension.ts:51-57 | the push loop builds the keys in first-seen order, and under each key exactly its classes in input order |
| Grouper.SortEach | src/extension.ts:61-72 | the second loop replaces each group by its sort, in key order |
| Grouper.GroupResponsive | src/extension.ts:47-75 | `groupResponsiveClasses` returns exactly `Clusters(classes)`, for which the lemmas above hold |
| Formatter.JsLength | src/extension.ts:146 | `.length` counts UTF-16 code units: between the character count and twice it |
| Formatter.JsLengthOfBmp | src/extension.ts:146 | a string of characters up to U+FFFF has `.length` equal to its character count |
| Formatter.JsLengthAppend | src/extension.ts:146 | `.length` of a concatenation is the sum of the lengths |
| Formatter.Pack | src/extension.ts:139-154 | the packing loop always holds a non-empty current line |
| Formatter.PackKeepsOrder | src/extension.ts:139-154 | the packed lines hold all the clusters, each once, in order |
| Formatter.PackIndents | src/extension.ts:139-154 | the first packed line has the class indent and every later one the wrap indent |
| Formatter.PackNonEmpty | src/extension.ts:139-154 | no packed line is empty |
| Formatter.PackFits | src/extension.ts:144-148 | every packed line holding two or more clusters is within the width |
| Formatter.PackBreaks | src/extension.ts:144-153 | every line break is forced: the next cluster would not have fitted on the previous line |
| Formatter.SingleClusterOwnLine | src/extension.ts:139-161 | at a positive width the first cluster of a category gets its own line at the class indent, whatever its length |
| Formatter.UnboundedSnoc | src/extension.ts:134-136 | with width 0 one more cluster adds exactly one line: the class indent and the cluster |
| Formatter.LayOutCategory | src/extension.ts:129-161 | the per-category loop pushes exactly the rendered `CategoryLines` of the joined clusters |
| Formatter.GroupInto | src/extension.ts:105-113 | `grouped` maps each category that occurs to its classes in input order; a category that does not occur has none |
| Formatter.EmptyCategoryBlock | src/extension.ts:124 | a category without classes contributes no line |
| Formatter.LayOutCategories | src/extension.ts:116-163 | the loop over `groupOrder` produces exactly the rendered lines of `FormatLines` |
| Formatter.Format | src/extension.ts:93-172 | `formatTailwindClasses` returns exactly `FormatSpec` of its arguments; `baseIndent` plays no part |
| FormatProperties.TokensOfJoined | src/extension.ts:132 | splitting the joined clusters gives back their classes in order |
| FormatProperties.UnboundedKeeps | src/extension.ts:134-136 | with width 0 the lines hold the clusters in order |
| FormatProperties.CategoryLinesIndents | src/extension.ts:134-153 | a category's first line has the class indent; later lines have the class indent at width 0 and the wrap indent otherwise |
| FormatProperties.CategoryLinesKeep | src/extension.ts:158-161 | for width 0 or more, the final flush makes the lines hold every cluster in order |
| FormatProperties.NegativeWidthDropsLastCluster | src/extension.ts:158-161 | for a negative width the last line is never flushed: the category keeps all but its last cluster |
| FormatProperties.CategoryTokensOfCategory | src/extension.ts:124-126 | the clusters of a category are a permutation of its classes, all of that category |
| FormatProperties.BlockHoldsClusters | src/extension.ts:126-161 | a category's lines hold its joined clusters in order, for width 0 or more |
| FormatProperties.BlockTokens | src/extension.ts:126-161 | splitting a category's lines gives its clusters' classes, in order |
| FormatProperties.LinesStayInCategory | src/extension.ts:139-154 | every class on a category's line belongs to that category |
| FormatProperties.UnboundedBlock | src/extension.ts:134-136 | with width 0 a category has one line per property, each at the class indent and holding one cluster |
| FormatProperties.BoundedBlock | src/extension.ts:139-161 | with a positive width, lines are non-empty, lines of two or more clusters fit, and each break was forced |
| FormatProperties.LinesKeepTokens | src/extension.ts:123-163 | splitting all the lines gives the classes grouped by category (in `groupOrder`) and clustered |
| FormatProperties.GroupedTokensArePermutation | src/extension.ts:105-126 | the grouped and clustered classes are a permutation of the input classes |
| FormatProperties.GroupedTokensInCategoryOrder | src/extension.ts:116-123 | the grouped classes ascend by the position of their category in `groupOrder` |
| FormatProperties.RegroupCategory | src/extension.ts:105-126 | regrouping the grouped classes gives every category the same clusters again |
| FormatProperties.RegroupLines | src/extension.ts:105-163 | the lines for the grouped classes are the lines for the original classes |
| FormatProperties.UnboundedLines | src/extension.ts:134-136 | with width 0 every line has the class indent and holds exactly one cluster |
| FormatProperties.NoClassesNoLines | src/extension.ts:123-124 | no classes give no lines |
| FormatProperties.TokensOfAssemble | src/extension.ts:165-171 | the wrapping newlines and the whitespace attribute indent add no token |
| FormatProperties.FormatEmpty | src/extension.ts:165-171 | a blank attribute gives `"\n\n" + attributeIndent`, or `"\n"`, with no class line |
| FormatProperties.FormatKeepsTokens | src/extension.ts:93-172 | the output's tokens are the input's classes grouped by category in `groupOrder` and clustered by property |
| FormatProperties.FormatIsPermutation | src/extension.ts:93-172 | the output's tokens are a permutation of the input's tokens: none lost, none added |
| FormatProperties.FormatKeepsCategoryOrder | src/extension.ts:116-163 | the output's tokens ascend by the position of their category in `groupOrder` |
| FormatProperties.FormatIdempotent | src/extension.ts:93-172 | formatting the output again with the same options gives the same output |
| WorkedExample.ExampleClusters | src/extension.ts:47-75 | `flex flex-col items-center` groups into `[flex, flex-col]` and `[items-center]` |
| WorkedExample.FlexColProperty | src/extension.ts:27-32 | the property of `flex-col` is `flex` and it has no breakpoint |
| WorkedExample.PlainProperty | src/extension.ts:27-32 | for lowercase `p` followed by a hyphen or nothing, the property of `p + q` is `p` |
| WorkedExample.PlainLayout | src/extension.ts:77-91 | a plain class starting with a layout rule is classified as layout |
| WorkedExample.ThreeTokensFormat | src/extension.ts:123-171 | at width 0, three layout classes of which two share a property give two class lines |
| WorkedExample.OverWidthLine | src/extension.ts:139-161 | at width 7 with attribute indent `""`, the cluster `p-4 md:p-8` is laid out as one line `  p-4 md:p-8` of length 12, though each class fits the width |
| WorkedExample.WidthZeroExample | src/extension.ts:134-136 | `flex flex-col items-center` at width 0 gives `"\n" + "    flex flex-col" + "\n" + "    items-center" + "\n" + "  "` |

## Left out

- `formatDocument`, `activate` and `deactivate` are not part of this model. They find class attributes in a document, read the editor configuration and apply text edits. They are editor I/O around the engine. The engine receives the configuration values as plain parameters.
- Grouper.GroupResponsive: requires that every property is an ordinary object key (`OrdinaryKey`). The engine formats every token of the attribute, custom classes included, and two kinds of property behave differently on a plain object. (1) A property that names a member of `Object.prototype`, such as `constructor` (a lowercase run) or `__proto__` (a base class starting with `_`): `propertyGroups[property]` is already truthy, so no array is created, and `.push` then throws a `TypeError` (src/extension.ts:53-56). The model has no exceptions, so it does not describe this failure. (2) A property that is an array index, such as `0` or `42` (a base class made of digits): `Object.keys` lists such keys first, in numeric order, not in first-seen order (src/extension.ts:61). The model's `Keys` keeps first-seen order only. Both are excluded rather than modelled wrongly. Tailwind's own utilities never produce either kind; custom classes can.
- Formatter.Format: the same `OrdinaryKey` precondition on the properties of its classes, for the reasons given under `Grouper.GroupResponsive`: on such a class the source throws or reorders clusters. `grouped` is keyed by category names, which are always ordinary keys.
- Formatter.LayOutCategories: the same `OrdinaryKey` precondition, for the reasons given under `Grouper.GroupResponsive`.
- Grouper.SortBy: models `Array.prototype.sort` with the comparator `weightA - weightB` as a stable insertion sort. The standard requires `sort` to be stable. Which comparisons the engine performs is not modelled.
- Formatter.Format: `maxLineWidth` is modelled as an integer. Non-integer widths, `NaN` and infinities are not modelled.
- FormatProperties.FormatKeepsTokens: requires a whitespace-only attribute indent and a width of 0 or more. The attribute indent is copied from the document's leading whitespace. For a negative width, see `NegativeWidthDropsLastCluster`.
- FormatProperties.FormatIsPermutation: the same two preconditions as `FormatKeepsTokens`.
- FormatProperties.FormatKeepsCategoryOrder: the same two preconditions as `FormatKeepsTokens`.
- FormatProperties.FormatIdempotent: the same two preconditions as `FormatKeepsTokens`.
- Text.Tokens: JavaScript strings are sequences of UTF-16 code units, while Dafny characters are Unicode scalar values. Lone surrogates therefore cannot be expressed. Whitespace is the fixed set that `\s` matches. Line lengths are counted in UTF-16 code units (`Formatter.JsLength`).
- The repository's tests are not modelled. The commented-out test's expectation is addressed by `WorkedExample.WidthZeroExample`.
