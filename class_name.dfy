/**
 * The facets of one class token: its variant prefixes (`hover:`, `dark:`, `md:`),
 * its base class, its property (the leading lowercase run of the base class),
 * its breakpoint and the breakpoint's sorting weight.
 */
module ClassName {
  import opened Wrappers
  import opened Text

  /** A character of `[a-z0-9]`. */
  predicate IsVariantChar(c: char) {
    'a' <= c <= 'z' || '0' <= c <= '9'
  }

  /** A character of `[a-z]`. */
  predicate IsLower(c: char) {
    'a' <= c <= 'z'
  }

  /** One variant prefix `[a-z0-9]+:`, colon included. */
  predicate IsSegment(p: string) {
    |p| >= 2 && p[|p| - 1] == ':' && forall i | 0 <= i < |p| - 1 :: IsVariantChar(p[i])
  }

  /** Length of the leading run of `[a-z0-9]` characters. */
  function VariantRun(s: string): (n: nat)
    ensures n <= |s|
    ensures forall i | 0 <= i < n :: IsVariantChar(s[i])
    ensures n < |s| ==> !IsVariantChar(s[n])
  {
    if s == [] || !IsVariantChar(s[0]) then 0 else 1 + VariantRun(s[1..])
  }

  /** Length of the leading run of `[a-z]` characters. */
  function LowerRun(s: string): (n: nat)
    ensures n <= |s|
    ensures forall i | 0 <= i < n :: IsLower(s[i])
    ensures n < |s| ==> !IsLower(s[n])
  {
    if s == [] || !IsLower(s[0]) then 0 else 1 + LowerRun(s[1..])
  }

  /**
   * Length of the variant prefix that `s` starts with, or 0 when it starts with
   * none.
   */
  function SegmentLength(s: string): (n: nat)
    ensures n <= |s|
    ensures n > 0 ==> IsSegment(s[..n])
  {
    var k := VariantRun(s);
    if 0 < k < |s| && s[k] == ':' then k + 1 else 0
  }

  /** A string starts with at most one variant prefix: the one `SegmentLength` finds. */
  lemma SegmentUnique(s: string, j: nat)
    requires j <= |s| && IsSegment(s[..j])
    ensures j == SegmentLength(s)
  {
    var k := VariantRun(s);
    assert s[..j][j - 1] == s[j - 1];
  }

  /**
   * `getBaseClassName`: the class with every leading variant prefix removed.
   * The result is a suffix of the token and starts with no variant prefix;
   * `BaseClassNameUnderVariant` and `BaseClassNameNoVariant` pin it down.
   */
  function BaseClassName(s: string): (r: string)
    ensures |r| <= |s| && r == s[|s| - |r|..]
    ensures SegmentLength(r) == 0
    decreases |s|
  {
    var n := SegmentLength(s);
    if n == 0 then s else BaseClassName(s[n..])
  }

  /** Stripping the variant prefixes twice is stripping them once. */
  lemma BaseClassNameIdempotent(s: string)
    ensures BaseClassName(BaseClassName(s)) == BaseClassName(s)
  {
  }

  /** A token with no variant prefix is its own base class. */
  lemma BaseClassNameNoVariant(s: string)
    requires SegmentLength(s) == 0
    ensures BaseClassName(s) == s
  {
  }

  /** Prepending a variant prefix does not change the base class. */
  lemma BaseClassNameUnderVariant(v: string, s: string)
    requires IsSegment(v)
    ensures BaseClassName(v + s) == BaseClassName(s)
  {
    assert (v + s)[..|v|] == v;
    SegmentUnique(v + s, |v|);
    assert (v + s)[|v|..] == s;
  }

  /**
   * `getClassProperty`: the maximal leading `[a-z]` run of the base class, or the
   * whole base class when that does not start with a lowercase letter.
   */
  function Property(s: string): (r: string)
    ensures var b := BaseClassName(s);
      IsPrefix(r, b) &&
      (b != [] && IsLower(b[0]) ==>
         |r| > 0 && (forall i | 0 <= i < |r| :: IsLower(r[i])) && (|r| == |b| || !IsLower(b[|r|]))) &&
      (b == [] || !IsLower(b[0]) ==> r == b)
  {
    LeadingLetters(BaseClassName(s))
  }

  /** `b.match(/^([a-z]+)/)`, falling back to `b` itself when there is no match. */
  function LeadingLetters(b: string): (r: string)
    ensures IsPrefix(r, b)
    ensures b != [] && IsLower(b[0]) ==>
      |r| > 0 && (forall i | 0 <= i < |r| :: IsLower(r[i])) && (|r| == |b| || !IsLower(b[|r|]))
    ensures b == [] || !IsLower(b[0]) ==> r == b
  {
    var n := LowerRun(b);
    if n > 0 then b[..n] else b
  }

  /** The responsive breakpoints, in ascending order (`breakpointOrder`). */
  const BreakpointOrder: seq<string> := ["sm", "md", "lg", "xl", "2xl"]

  /**
   * `getBreakpoint`: the breakpoint named by the token's very first prefix
   * (`/^(sm|md|lg|xl|2xl):/`), or `None`.
   */
  function Breakpoint(s: string): (r: Option<string>)
    ensures r.Some? ==> r.value in BreakpointOrder && IsPrefix(r.value + ":", s)
    ensures r.None? ==> forall b | b in BreakpointOrder :: !IsPrefix(b + ":", s)
  {
    if IsPrefix("sm:", s) then Some("sm")
    else if IsPrefix("md:", s) then Some("md")
    else if IsPrefix("lg:", s) then Some("lg")
    else if IsPrefix("xl:", s) then Some("xl")
    else if IsPrefix("2xl:", s) then Some("2xl")
    else None
  }

  /**
   * `getBreakpointWeight`: -1 without a breakpoint, otherwise the breakpoint's
   * position in `BreakpointOrder` (sm = 0 … 2xl = 4).
   */
  function BreakpointWeight(s: string): (w: int)
    ensures -1 <= w < |BreakpointOrder|
    ensures w == -1 <==> Breakpoint(s).None?
    ensures w >= 0 ==> BreakpointOrder[w] == Breakpoint(s).value
  {
    match Breakpoint(s)
    case None => -1
    case Some(b) => IndexOf(BreakpointOrder, b)
  }

  /** The breakpoint literals are themselves `[a-z0-9]+` words. */
  lemma BreakpointIsSegment(b: string)
    requires b in BreakpointOrder
    ensures IsSegment(b + ":")
  {
  }

  /**
   * Only the first variant prefix is looked at: a breakpoint is found exactly
   * when the token's first prefix names one, whatever prefixes follow.
   */
  lemma BreakpointIsFirstSegment(s: string)
    ensures var n := SegmentLength(s);
      Breakpoint(s) == if n > 0 && s[..n - 1] in BreakpointOrder then Some(s[..n - 1]) else None
  {
    var n := SegmentLength(s);
    match Breakpoint(s)
    case Some(b) =>
      BreakpointIsSegment(b);
      assert s[..|b| + 1] == b + ":";
      SegmentUnique(s, |b| + 1);
      assert s[..n - 1] == b;
    case None =>
      if n > 0 {
        SegmentNamesPrefix(s);
      }
  }

  /** The word of a token's first prefix, with its colon, is a prefix of the token. */
  lemma SegmentNamesPrefix(s: string)
    requires SegmentLength(s) > 0
    ensures IsPrefix(s[..SegmentLength(s) - 1] + ":", s)
  {
    var n := SegmentLength(s);
    assert s[..n] == s[..n - 1] + ":";
  }

  /** Worked cases of the first-prefix rule: a leading breakpoint is found, whatever follows it. */
  lemma BreakpointExamples()
    ensures Breakpoint("md:hover:pt-4") == Some("md")
    ensures Breakpoint("sm:md:pt-4") == Some("sm")
  {
    assert "md:hover:pt-4"[..3] == "md:";
    assert "sm:md:pt-4"[..3] == "sm:";
  }

  /** Worked cases of the first-prefix rule: a breakpoint behind another prefix is not seen. */
  lemma NoBreakpointExamples()
    ensures Breakpoint("dark:md:hover:pt-4") == None
    ensures Breakpoint("hover:bg-blue-500") == None
  {
    assert "dark:md:hover:pt-4"[0] == 'd';
    assert "hover:bg-blue-500"[0] == 'h';
  }

  /**
   * A token whose first prefix is the i-th breakpoint weighs i, so weights grow
   * with the breakpoint (sm < md < lg < xl < 2xl).
   */
  lemma WeightOfBreakpointToken(i: nat, t: string)
    requires i < |BreakpointOrder|
    ensures BreakpointWeight(BreakpointOrder[i] + ":" + t) == i
  {
    var b := BreakpointOrder[i];
    var s := b + ":" + t;
    BreakpointIsSegment(b);
    assert s[..|b| + 1] == b + ":";
    SegmentUnique(s, |b| + 1);
    BreakpointIsFirstSegment(s);
    assert s[..|b|] == b;
  }

  /**
   * For any class `t` without a breakpoint prefix: it weighs -1 and sorts first, then
   * `sm:t` < `md:t` < `lg:t` < `xl:t` < `2xl:t`.
   */
  lemma WeightsAscend(t: string)
    requires Breakpoint(t).None?
    ensures BreakpointWeight(t) == -1
    ensures forall i, j | 0 <= i < j < |BreakpointOrder| ::
      BreakpointWeight(t) < BreakpointWeight(BreakpointOrder[i] + ":" + t) < BreakpointWeight(BreakpointOrder[j] + ":" + t)
  {
    forall i | 0 <= i < |BreakpointOrder| ensures BreakpointWeight(BreakpointOrder[i] + ":" + t) == i {
      WeightOfBreakpointToken(i, t);
    }
  }
}
