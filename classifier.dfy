/**
 * `classifyTailwindClass`: the category of a class token, found by a first-match
 * scan over a constant table of prefix rules.
 */
module Classifier {
  import opened Wrappers
  import opened Text
  import opened ClassName

  datatype Category =
    | Layout | Sizing | Spacing | Typography | Background | Borders | Effects
    | Filters | Interactivity | Svg | Accessibility | Transforms | Other

  /**
   * `tailwindGroups`: the categories in the order the classifier tries them, each
   * with its rules in the order they are tried.
   */
  const MatchTable: seq<(Category, seq<string>)> := [
    (Layout, LayoutRules), (Sizing, SizingRules), (Spacing, SpacingRules), (Typography, TypographyRules),
    (Background, BackgroundRules), (Borders, BordersRules), (Effects, EffectsRules), (Filters, FiltersRules),
    (Interactivity, InteractivityRules), (Svg, SvgRules), (Accessibility, AccessibilityRules),
    (Transforms, TransformsRules)
  ]

  /** `tailwindGroups.layout`. */
  const LayoutRules: seq<string> := [
    "container", "box-", "block", "inline", "flex", "grid", "table", "hidden", "float-", "clear-", "object-",
    "overflow-", "overscroll-", "static", "fixed", "absolute", "relative", "sticky", "isolate", "isolation-",
    "inset-", "top-", "right-", "bottom-", "left-", "visible", "invisible", "z-", "items-", "justify-",
    "self-"
  ]

  /** `tailwindGroups.sizing`. */
  const SizingRules: seq<string> := [
    "w-", "h-", "min-w-", "min-h-", "max-w-", "max-h-", "size-"
  ]

  /** `tailwindGroups.spacing`. */
  const SpacingRules: seq<string> := [
    "p-", "px-", "py-", "pt-", "pr-", "pb-", "pl-", "ps-", "pe-", "m-", "mx-", "my-", "mt-", "mr-", "mb-",
    "ml-", "ms-", "me-", "space-"
  ]

  /** `tailwindGroups.typography`. */
  const TypographyRules: seq<string> := [
    "font-", "text-", "antialiased", "subpixel-", "italic", "not-italic", "normal-nums", "ordinal",
    "slashed-zero", "lining-nums", "oldstyle-nums", "proportional-nums", "tabular-nums",
    "diagonal-fractions", "stacked-fractions", "leading-", "tracking-", "line-clamp-", "break-", "truncate",
    "text-ellipsis", "text-clip", "hyphens-", "uppercase", "lowercase", "capitalize", "normal-case",
    "underline", "overline", "line-through", "no-underline", "decoration-", "underline-offset-", "indent-",
    "align-", "whitespace-", "text-wrap", "text-nowrap", "text-balance", "text-pretty"
  ]

  /** `tailwindGroups.background`. */
  const BackgroundRules: seq<string> := [
    "bg-", "from-", "via-", "to-", "background-"
  ]

  /** `tailwindGroups.borders`. */
  const BordersRules: seq<string> := [
    "border", "rounded", "divide-", "outline-", "ring-"
  ]

  /** `tailwindGroups.effects`. */
  const EffectsRules: seq<string> := [
    "shadow-", "opacity-", "mix-", "blur-", "brightness-", "contrast-", "grayscale", "hue-rotate-", "invert",
    "saturate-", "sepia", "backdrop-", "transition", "duration-", "ease-", "delay-", "animate-"
  ]

  /** `tailwindGroups.filters`. */
  const FiltersRules: seq<string> := [
    "filter", "backdrop-filter"
  ]

  /** `tailwindGroups.interactivity`. */
  const InteractivityRules: seq<string> := [
    "appearance-", "cursor-", "caret-", "pointer-events-", "resize-", "scroll-", "snap-", "touch-",
    "select-", "will-change-"
  ]

  /** `tailwindGroups.svg`. */
  const SvgRules: seq<string> := [
    "fill-", "stroke-"
  ]

  /** `tailwindGroups.accessibility`. */
  const AccessibilityRules: seq<string> := [
    "sr-only", "not-sr-only", "forced-color-adjust-"
  ]

  /** `tailwindGroups.transforms`. */
  const TransformsRules: seq<string> := [
    "scale-", "rotate-", "translate-", "skew-", "transform", "origin-"
  ]

  /**
   * `groupOrder`: the order in which the formatter emits categories. It differs
   * from the matching order: transforms comes before interactivity.
   */
  const GroupOrder: seq<Category> := [
    Layout, Sizing, Spacing, Typography, Background, Borders, Effects, Filters, Transforms,
    Interactivity, Svg, Accessibility, Other
  ]

  /** The position of a category in `GroupOrder`. */
  function GroupRank(c: Category): (k: nat)
    ensures k < |GroupOrder| && GroupOrder[k] == c
    ensures forall j | 0 <= j < |GroupOrder| && GroupOrder[j] == c :: j == k
  {
    match c
    case Layout => 0
    case Sizing => 1
    case Spacing => 2
    case Typography => 3
    case Background => 4
    case Borders => 5
    case Effects => 6
    case Filters => 7
    case Transforms => 8
    case Interactivity => 9
    case Svg => 10
    case Accessibility => 11
    case Other => 12
  }

  /** Every category occurs exactly once in `GroupOrder`. */
  lemma GroupOrderIsPermutation()
    ensures forall c: Category :: c in GroupOrder
    ensures forall i, j | 0 <= i < j < |GroupOrder| :: GroupOrder[i] != GroupOrder[j]
  {
    forall c: Category ensures c in GroupOrder {
      assert GroupOrder[GroupRank(c)] == c;
    }
    forall i, j | 0 <= i < j < |GroupOrder| ensures GroupOrder[i] != GroupOrder[j] {
      assert GroupRank(GroupOrder[i]) == i;
    }
  }

  /** `\n`, `\r`, U+2028 and U+2029: the characters a regular-expression `.` does not match. */
  predicate IsLineTerminator(c: char) {
    c == '\n' || c == '\r' || c == '\U{2028}' || c == '\U{2029}'
  }

  predicate HasLineTerminator(s: string) {
    exists i | 0 <= i < |s| :: IsLineTerminator(s[i])
  }

  /**
   * The base class `classifyTailwindClass` matches on: the text captured by
   * `(.+)` in `/^([a-z0-9]+:)+(.+)$/`, or the whole token when that does not
   * match. The regex strips as many variant prefixes as it can while leaving a
   * non-empty rest, so the result is non-empty (for a non-empty token) and
   * either starts with no variant prefix or is exactly one (`hover:`).
   */
  function MatchBase(s: string): (r: string)
    ensures |r| <= |s|
    ensures r == [] ==> s == []
    ensures HasLineTerminator(s) ==> r == s
    ensures !HasLineTerminator(s) ==> SegmentLength(r) == 0 || SegmentLength(r) == |r|
  {
    if HasLineTerminator(s) then s else StripLeavingRest(s)
  }

  /** Removes leading variant prefixes, but never the last one when nothing would follow it. */
  function StripLeavingRest(s: string): (r: string)
    ensures |r| <= |s|
    ensures r == [] ==> s == []
    ensures SegmentLength(r) == 0 || SegmentLength(r) == |r|
    decreases |s|
  {
    var n := SegmentLength(s);
    if n == 0 || n == |s| then s else StripLeavingRest(s[n..])
  }

  /** A variant prefix in front of a non-empty rest is skipped by the classifier's regex. */
  lemma MatchBaseUnderVariant(v: string, s: string)
    requires IsSegment(v) && s != [] && !HasLineTerminator(s)
    ensures MatchBase(v + s) == MatchBase(s)
  {
    var t := v + s;
    assert t[..|v|] == v;
    SegmentUnique(t, |v|);
    assert t[|v|..] == s;
    assert !HasLineTerminator(t) by {
      forall i | 0 <= i < |t| ensures !IsLineTerminator(t[i]) {
        if i >= |v| { assert t[i] == s[i - |v|]; }
      }
    }
  }

  /** A lone variant prefix such as `hover:` is kept whole by the classifier, but stripped to "" by `BaseClassName`. */
  lemma LoneVariantDiverges(v: string)
    requires IsSegment(v)
    ensures MatchBase(v) == v
    ensures BaseClassName(v) == []
  {
    assert v[..|v|] == v;
    SegmentUnique(v, |v|);
    assert !HasLineTerminator(v) by {
      forall i | 0 <= i < |v| ensures !IsLineTerminator(v[i]) {
        assert i < |v| - 1 ==> IsVariantChar(v[i]);
      }
    }
  }

  /**
   * Whenever `BaseClassName` leaves something, the classifier's regex agrees
   * with it: both strip every leading variant prefix.
   */
  lemma {:induction false} StripLeavingRestAgrees(s: string)
    requires BaseClassName(s) != []
    ensures StripLeavingRest(s) == BaseClassName(s)
    decreases |s|
  {
    var n := SegmentLength(s);
    if n > 0 {
      assert n < |s|;
      StripLeavingRestAgrees(s[n..]);
    }
  }

  /**
   * What `classifyTailwindClass` matches on agrees with `getBaseClassName`
   * whenever the latter leaves something and the token has no line terminator.
   */
  lemma MatchBaseAgrees(s: string)
    requires BaseClassName(s) != [] && !HasLineTerminator(s)
    ensures MatchBase(s) == BaseClassName(s)
  {
    StripLeavingRestAgrees(s);
  }

  /**
   * `prefix.replace('-', '')`: only the FIRST hyphen goes; a rule without one
   * is its own bare form (`RemoveFirstHyphenSplits` covers the others).
   */
  function RemoveFirstHyphen(p: string): (r: string)
    ensures '-' !in p ==> r == p
    ensures '-' in p ==> |r| == |p| - 1
  {
    if p == [] then []
    else if p[0] == '-' then p[1..]
    else
      assert p == [p[0]] + p[1..];
      [p[0]] + RemoveFirstHyphen(p[1..])
  }

  /** Only the first hyphen goes: `a-b` becomes `ab` whatever hyphens `b` holds. */
  lemma {:induction false} RemoveFirstHyphenSplits(a: string, b: string)
    requires '-' !in a
    ensures RemoveFirstHyphen(a + "-" + b) == a + b
    decreases |a|
  {
    if a != [] {
      assert (a + "-" + b)[1..] == a[1..] + "-" + b;
      RemoveFirstHyphenSplits(a[1..], b);
      assert a == [a[0]] + a[1..];
    }
  }

  /**
   * The bare form of `min-w-` is `minw-`, not `minw`, so a bare `min-w` matches
   * no sizing rule.
   */
  lemma BareFormOfMinW()
    ensures RemoveFirstHyphen("min-w-") == "minw-"
    ensures !AnyRuleMatches("min-w", SizingRules)
  {
    RemoveFirstHyphenSplits("min", "w-");
    forall j | 0 <= j < |SizingRules| ensures !RuleMatches("min-w", SizingRules[j]) {
      BareSizingRule(j);
    }
  }

  /** The bare forms of the sizing rules: `w`, `h`, `minw-`, `minh-`, `maxw-`, `maxh-`, `size`. */
  lemma BareSizingRule(j: nat)
    requires j < |SizingRules|
    ensures RemoveFirstHyphen(SizingRules[j]) == ["w", "h", "minw-", "minh-", "maxw-", "maxh-", "size"][j]
  {
    var heads := ["w", "h", "min", "min", "max", "max", "size"];
    var tails := ["", "", "w-", "h-", "w-", "h-", ""];
    assert '-' !in heads[j];
    assert SizingRules[j] == heads[j] + "-" + tails[j];
    assert heads[j] + tails[j] == ["w", "h", "minw-", "minh-", "maxw-", "maxh-", "size"][j];
    RemoveFirstHyphenSplits(heads[j], tails[j]);
  }

  /** The bare form of `sr-only` is `sronly`. */
  lemma BareFormOfSrOnly()
    ensures RemoveFirstHyphen("sr-only") == "sronly"
  {
    assert '-' !in "sr";
    assert "sr" + "-" + "only" == "sr-only";
    assert "sr" + "only" == "sronly";
    RemoveFirstHyphenSplits("sr", "only");
  }

  /** A rule matches a base that starts with it, or that equals it with its first hyphen removed. */
  predicate RuleMatches(base: string, rule: string) {
    IsPrefix(rule, base) || base == RemoveFirstHyphen(rule)
  }

  /** The inner loop of the scan: does any rule of this category match? */
  function AnyRuleMatches(base: string, rules: seq<string>): (b: bool)
    ensures b <==> exists j | 0 <= j < |rules| :: RuleMatches(base, rules[j])
  {
    if rules == [] then false
    else if RuleMatches(base, rules[0]) then true
    else
      var b := AnyRuleMatches(base, rules[1..]);
      assert forall j | 1 <= j < |rules| :: rules[j] == rules[1..][j - 1];
      b
  }

  /** The outer loop of the scan: the first table entry with a matching rule. */
  function FirstMatch(table: seq<(Category, seq<string>)>, base: string): (r: Option<nat>)
    ensures r.Some? ==> r.value < |table| && AnyRuleMatches(base, table[r.value].1)
    ensures r.Some? ==> forall k | 0 <= k < r.value :: !AnyRuleMatches(base, table[k].1)
    ensures r.None? ==> forall k | 0 <= k < |table| :: !AnyRuleMatches(base, table[k].1)
  {
    if table == [] then None
    else if AnyRuleMatches(base, table[0].1) then Some(0)
    else
      match FirstMatch(table[1..], base)
      case None =>
        assert forall k | 1 <= k < |table| :: table[k] == table[1..][k - 1];
        None
      case Some(i) =>
        assert forall k | 1 <= k <= i :: table[k] == table[1..][k - 1];
        Some(i + 1)
  }

  /** `Other` is the fallback only: no table entry is labelled with it. */
  lemma TableHasNoOther()
    ensures forall k | 0 <= k < |MatchTable| :: MatchTable[k].0 != Other
  {
  }

  /**
   * `classifyTailwindClass`: the category of the first table entry, in table
   * order, one of whose rules matches the token's base; `Other` when none does.
   */
  function Classify(s: string): (c: Category)
    ensures c == Other <==> forall k | 0 <= k < |MatchTable| :: !AnyRuleMatches(MatchBase(s), MatchTable[k].1)
    ensures c != Other ==> exists i | 0 <= i < |MatchTable| ::
      MatchTable[i].0 == c && AnyRuleMatches(MatchBase(s), MatchTable[i].1) &&
      forall k | 0 <= k < i :: !AnyRuleMatches(MatchBase(s), MatchTable[k].1)
  {
    TableHasNoOther();
    match FirstMatch(MatchTable, MatchBase(s))
    case None => Other
    case Some(i) => MatchTable[i].0
  }

  /**
   * First match wins: when a rule of entry `i` matches, the token is put in
   * entry `i`'s category or in that of an earlier entry, never a later one.
   * So `backdrop-filter`, matched by the effects rule `backdrop-`, can never
   * reach the filters entry that lists it.
   */
  lemma EarlierEntryWins(s: string, i: nat, j: nat)
    requires i < |MatchTable| && j < |MatchTable[i].1| && RuleMatches(MatchBase(s), MatchTable[i].1[j])
    ensures exists k | 0 <= k <= i :: MatchTable[k].0 == Classify(s)
  {
    TableHasNoOther();
    assert AnyRuleMatches(MatchBase(s), MatchTable[i].1);
  }
}
