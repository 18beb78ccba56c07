/**
 * The unbounded layout worked through for three layout classes of which the
 * first two share a base property and the third does not, and then for the
 * concrete call
 * `formatTailwindClasses("flex flex-col items-center", "", "  ", true, 0, "same")`.
 * The three classes form two responsive clusters, and with width 0 every
 * cluster gets its own line: the result holds two lines of classes, not one.
 */
module WorkedExample {
  import opened Text
  import opened ClassName
  import opened Classifier
  import opened Grouper
  import opened Formatter
  import opened FormatProperties

  // ---------------------------------------------------------------------------
  // Three tokens, two clusters, one category
  // ---------------------------------------------------------------------------

  lemma FlattenTwoParts(a: string, b: string, c: string)
    ensures Flatten([[a, b], [c]]) == [a, b, c]
  {
    var cs := [[a, b], [c]];
    assert cs[..1][..0] == [];
    assert cs[..1] == [[a, b]];
    assert Flatten(cs[..1]) == Flatten(cs[..1][..0]) + [a, b];
    assert Flatten(cs) == Flatten(cs[..1]) + [c];
  }

  lemma PairSorted(a: string, b: string)
    requires BreakpointWeight(a) <= BreakpointWeight(b)
    ensures SortedBy([a, b], BreakpointWeight)
  {
  }

  /** Two tokens of one key followed by a token of another make two clusters. */
  lemma ThreeTokensClustersBy(a: string, b: string, c: string, key: string -> string)
    requires key(a) == key(b) != key(c)
    requires BreakpointWeight(a) <= BreakpointWeight(b)
    ensures ClustersBy([a, b, c], key) == [[a, b], [c]]
  {
    FlattenTwoParts(a, b, c);
    PairSorted(a, b);
    assert Keyed([[a, b], [c]], key, [key(a), key(c)]);
    assert SortedParts([[a, b], [c]]);
    ClustersOfGrouped([[a, b], [c]], key, [key(a), key(c)]);
  }

  /** The same with the key `groupResponsiveClasses` uses: the property. */
  lemma ThreeTokensClusters(a: string, b: string, c: string)
    requires Property(a) == Property(b) != Property(c)
    requires BreakpointWeight(a) <= BreakpointWeight(b)
    ensures Clusters([a, b, c]) == [[a, b], [c]]
  {
    ThreeTokensClustersBy(a, b, c, Property);
  }

  /** Tokens that all fall in one category fill that category and leave the others empty. */
  lemma ThreeTokensCategory(a: string, b: string, c: string, classify: string -> Category, d: Category)
    requires classify(a) == classify(b) == classify(c) == Layout
    ensures CategoryClasses([a, b, c], classify, d) == if d == Layout then [a, b, c] else []
  {
    BucketOfUniform([a, b, c], classify, Layout, d);
  }

  lemma JoinedTwoParts(a: string, b: string, c: string)
    ensures Joined([[a, b], [c]]) == [a + " " + b, c]
  {
    JoinSnoc([a], b, " ");
    assert [a] + [b] == [a, b];
  }

  /** Two clusters at width 0: two lines. */
  lemma UnboundedTwo(x: string, y: string, classIndent: string, wrapIndent: string)
    ensures CategoryLines([x, y], classIndent, wrapIndent, 0) == [Line(classIndent, [x]), Line(classIndent, [y])]
  {
  }

  /** The layout lines at width 0: one per cluster, at the class indentation. */
  lemma ThreeTokensBlock(a: string, b: string, c: string, classify: string -> Category, attributeIndent: string,
                         wrapIndentStyle: string)
    requires classify(a) == classify(b) == classify(c) == Layout
    requires Clusters([a, b, c]) == [[a, b], [c]]
    ensures CategoryBlock([a, b, c], classify, Layout, attributeIndent, 0, wrapIndentStyle) ==
      [Line(ClassIndent(attributeIndent), [a + " " + b]), Line(ClassIndent(attributeIndent), [c])]
  {
    ThreeTokensCategory(a, b, c, classify, Layout);
    JoinedTwoParts(a, b, c);
    UnboundedTwo(a + " " + b, c, ClassIndent(attributeIndent), WrapIndent(attributeIndent, wrapIndentStyle));
  }

  /** Every category after layout has no lines. */
  lemma ThreeTokensOtherBlocks(a: string, b: string, c: string, classify: string -> Category,
                               attributeIndent: string, wrapIndentStyle: string)
    requires classify(a) == classify(b) == classify(c) == Layout
    ensures var blocks := Blocks([a, b, c], classify, attributeIndent, 0, wrapIndentStyle);
      forall g | 1 <= g < |blocks| :: blocks[g] == []
  {
    forall g | 1 <= g < |GroupOrder|
      ensures CategoryBlock([a, b, c], classify, GroupOrder[g], attributeIndent, 0, wrapIndentStyle) == []
    {
      ThreeTokensCategory(a, b, c, classify, GroupOrder[g]);
      EmptyCategoryBlock([a, b, c], classify, GroupOrder[g], attributeIndent, 0, wrapIndentStyle);
    }
  }

  /** Parts that are all empty after the first concatenate to the first. */
  lemma {:induction false} FlattenFirstOnly<T>(bs: seq<seq<T>>)
    requires bs != [] && forall g | 1 <= g < |bs| :: bs[g] == []
    ensures Flatten(bs) == bs[0]
    decreases |bs|
  {
    if |bs| == 1 {
      assert bs[..0] == [];
    } else {
      var init := bs[..|bs| - 1];
      assert init[0] == bs[0];
      FlattenFirstOnly(init);
    }
  }

  /** All the lines at width 0: the layout block's two lines and nothing else. */
  lemma ThreeTokensLines(a: string, b: string, c: string, classify: string -> Category, attributeIndent: string,
                         wrapIndentStyle: string)
    requires classify(a) == classify(b) == classify(c) == Layout
    requires Clusters([a, b, c]) == [[a, b], [c]]
    ensures FormatLines([a, b, c], classify, attributeIndent, 0, wrapIndentStyle) ==
      [Line(ClassIndent(attributeIndent), [a + " " + b]), Line(ClassIndent(attributeIndent), [c])]
  {
    ThreeTokensBlock(a, b, c, classify, attributeIndent, wrapIndentStyle);
    ThreeTokensOtherBlocks(a, b, c, classify, attributeIndent, wrapIndentStyle);
    FlattenFirstOnly(Blocks([a, b, c], classify, attributeIndent, 0, wrapIndentStyle));
  }

  /** The text `"a b c"` reads back as the three tokens. */
  lemma ThreeTokensSplit(a: string, b: string, c: string)
    requires IsWord(a) && IsWord(b) && IsWord(c)
    ensures Tokens(a + " " + b + " " + c) == [a, b, c]
  {
    JoinSnoc([a], b, " ");
    assert [a] + [b] == [a, b];
    JoinSnoc([a, b], c, " ");
    assert [a, b] + [c] == [a, b, c];
    JoinSplitRoundTrip([a, b, c]);
  }

  /** A line holding one cluster reads as its indentation followed by the cluster. */
  lemma RenderSingle(indent: string, x: string)
    ensures Render(Line(indent, [x])) == indent + x
  {
  }

  /** Two lines, rendered and joined by a newline. */
  lemma TwoLinesText(l1: Line, l2: Line)
    ensures Join(RenderAll([l1, l2]), "\n") == Render(l1) + "\n" + Render(l2)
  {
    assert RenderAll([l1, l2]) == [Render(l1)] + [Render(l2)];
    JoinSnoc([Render(l1)], Render(l2), "\n");
  }

  /** The returned text regrouped: concatenation is associative. */
  lemma TwoLinesShape(attributeIndent: string, a: string, b: string, c: string)
    ensures var ci := attributeIndent + "  ";
      "\n" + ((ci + (a + " " + b)) + "\n" + (ci + c)) + "\n" + attributeIndent ==
      "\n" + (attributeIndent + "  " + a + " " + b) + "\n" + (attributeIndent + "  " + c) + "\n" + attributeIndent
  {
  }

  /** The text around the two lines, with the quote on its own line. */
  lemma ThreeTokensText(a: string, b: string, c: string, classify: string -> Category, attributeIndent: string,
                        wrapIndentStyle: string)
    requires classify(a) == classify(b) == classify(c) == Layout
    requires Clusters([a, b, c]) == [[a, b], [c]]
    ensures Assemble(RenderAll(FormatLines([a, b, c], classify, attributeIndent, 0, wrapIndentStyle)), attributeIndent, true) ==
      "\n" + (attributeIndent + "  " + a + " " + b) + "\n" + (attributeIndent + "  " + c) + "\n" + attributeIndent
  {
    var ci := ClassIndent(attributeIndent);
    ThreeTokensLines(a, b, c, classify, attributeIndent, wrapIndentStyle);
    TwoLinesText(Line(ci, [a + " " + b]), Line(ci, [c]));
    RenderSingle(ci, a + " " + b);
    RenderSingle(ci, c);
    TwoLinesShape(attributeIndent, a, b, c);
  }

  /**
   * The returned text at width 0 with the quote on its own line: the first two
   * tokens on one line and the third on the next, both at the class indentation.
   */
  lemma ThreeTokensFormat(a: string, b: string, c: string, attributeIndent: string, wrapIndentStyle: string)
    requires IsWord(a) && IsWord(b) && IsWord(c)
    requires Classify(a) == Classify(b) == Classify(c) == Layout
    requires Clusters([a, b, c]) == [[a, b], [c]]
    ensures FormatSpec(a + " " + b + " " + c, attributeIndent, true, 0, wrapIndentStyle) ==
      "\n" + (attributeIndent + "  " + a + " " + b) + "\n" + (attributeIndent + "  " + c) + "\n" + attributeIndent
  {
    ThreeTokensSplit(a, b, c);
    ThreeTokensText(a, b, c, Classify, attributeIndent, wrapIndentStyle);
  }

  // ---------------------------------------------------------------------------
  // The concrete call
  // ---------------------------------------------------------------------------

  /** A string of lowercase letters and hyphens only. */
  predicate IsPlain(s: string) {
    forall i | 0 <= i < |s| :: IsLower(s[i]) || s[i] == '-'
  }

  lemma PlainAppend(p: string, q: string)
    requires IsPlain(p) && IsPlain(q)
    ensures IsPlain(p + q)
  {
    forall i | 0 <= i < |p + q|
      ensures IsLower((p + q)[i]) || (p + q)[i] == '-'
    {
      if i >= |p| { assert (p + q)[i] == q[i - |p|]; }
    }
  }

  /** A plain token starts with no variant prefix and is its own base class. */
  lemma PlainBase(s: string)
    requires IsPlain(s)
    ensures SegmentLength(s) == 0 && BaseClassName(s) == s
  {
    var k := VariantRun(s);
    if 0 < k < |s| {
      assert s[k] != ':';
    }
  }

  /** A plain token names no breakpoint. */
  lemma PlainWeight(s: string)
    requires IsPlain(s)
    ensures BreakpointWeight(s) == -1
  {
    forall b | b in BreakpointOrder
      ensures !IsPrefix(b + ":", s)
    {
      assert (b + ":")[|b|] == ':';
    }
  }

  /** The classifier strips nothing from a plain token. */
  lemma PlainMatchBase(s: string)
    requires IsPlain(s)
    ensures MatchBase(s) == s
  {
    PlainBase(s);
    assert !HasLineTerminator(s);
  }

  /**
   * A plain token made of a run of letters `p`, optionally followed by a hyphen
   * and more: its property is `p`.
   */
  lemma PlainProperty(p: string, q: string)
    requires p != [] && (forall i | 0 <= i < |p| :: IsLower(p[i]))
    requires IsPlain(p + q) && (q != [] ==> q[0] == '-')
    ensures Property(p + q) == p
  {
    PlainBase(p + q);
    LowerRunOfWord(p, q);
    assert (p + q)[..|p|] == p;
  }

  /** The lowercase run of letters `p` followed by something that is not a letter is `p`. */
  lemma LowerRunOfWord(p: string, q: string)
    requires (forall i | 0 <= i < |p| :: IsLower(p[i])) && (q != [] ==> q[0] == '-')
    ensures LowerRun(p + q) == |p|
  {
    var s := p + q;
    if |p| < |s| {
      assert s[|p|] == q[0];
    }
  }

  /** A plain token that starts with a layout rule is a layout class. */
  lemma PlainLayout(p: string, q: string, j: nat)
    requires j < |LayoutRules| && LayoutRules[j] == p
    requires IsPlain(p + q)
    ensures Classify(p + q) == Layout
  {
    PlainMatchBase(p + q);
    assert IsPrefix(p, p + q);
    EarlierEntryWins(p + q, 0, j);
  }

  lemma FlexProperty()
    ensures Property("flex") == "flex" && BreakpointWeight("flex") == -1
  {
    assert IsPlain("flex");
    assert "flex" + "" == "flex";
    PlainProperty("flex", "");
    PlainWeight("flex");
  }

  lemma FlexClass()
    ensures Classify("flex") == Layout
  {
    assert IsPlain("flex");
    assert "flex" + "" == "flex";
    PlainLayout("flex", "", 4);
  }

  lemma FlexColProperty()
    ensures Property("flex-col") == "flex" && BreakpointWeight("flex-col") == -1
  {
    assert IsPlain("flex") && IsPlain("-col");
    PlainAppend("flex", "-col");
    assert "flex" + "-col" == "flex-col";
    PlainProperty("flex", "-col");
    PlainWeight("flex-col");
  }

  lemma FlexColClass()
    ensures Classify("flex-col") == Layout
  {
    assert IsPlain("flex") && IsPlain("-col");
    PlainAppend("flex", "-col");
    assert "flex" + "-col" == "flex-col";
    PlainLayout("flex", "-col", 4);
  }

  lemma ItemsCenterProperty()
    ensures Property("items-center") == "items" && BreakpointWeight("items-center") == -1
  {
    assert IsPlain("items") && IsPlain("-center");
    PlainAppend("items", "-center");
    assert "items" + "-center" == "items-center";
    PlainProperty("items", "-center");
    PlainWeight("items-center");
  }

  lemma ItemsCenterClass()
    ensures Classify("items-center") == Layout
  {
    assert IsPlain("items-") && IsPlain("center");
    PlainAppend("items-", "center");
    assert "items-" + "center" == "items-center";
    PlainLayout("items-", "center", 28);
  }

  lemma ExampleClusters()
    ensures Clusters(["flex", "flex-col", "items-center"]) == [["flex", "flex-col"], ["items-center"]]
  {
    FlexProperty();
    FlexColProperty();
    ItemsCenterProperty();
    ThreeTokensClusters("flex", "flex-col", "items-center");
  }

  lemma ExampleWords()
    ensures IsWord("flex") && IsWord("flex-col") && IsWord("items-center")
  {
  }

  lemma ExampleInput()
    ensures "flex" + " " + "flex-col" + " " + "items-center" == "flex flex-col items-center"
  {
  }

  lemma ExampleOutput()
    ensures "  " + "  " + "flex" + " " + "flex-col" == "    flex flex-col"
    ensures "  " + "  " + "items-center" == "    items-center"
  {
  }

  /**
   * `flex flex-col items-center` at width 0: two lines, `flex flex-col` and
   * `items-center`, each at the class indentation.
   */
  lemma WidthZeroExample()
    ensures FormatSpec("flex flex-col items-center", "  ", true, 0, "same") ==
      "\n" + "    flex flex-col" + "\n" + "    items-center" + "\n" + "  "
  {
    FlexClass();
    FlexColClass();
    ItemsCenterClass();
    ExampleClusters();
    ExampleWords();
    ExampleInput();
    ExampleOutput();
    ThreeTokensFormat("flex", "flex-col", "items-center", "  ", "same");
  }

  // ---------------------------------------------------------------------------
  // A line over the width
  // ---------------------------------------------------------------------------

  /**
   * The cluster `p-4 md:p-8` at width 7 and attribute indentation "": each class
   * fits the width, but the cluster's line is 12 code units long and is kept
   * whole on one line.
   */
  lemma OverWidthLine()
    ensures CategoryLines([Join(["p-4", "md:p-8"], " ")], ClassIndent(""), WrapIndent("", "same"), 7) ==
      [Line("  ", ["p-4 md:p-8"])]
    ensures JsLength("p-4") <= 7 && JsLength("md:p-8") <= 7
    ensures JsLength(Render(Line("  ", ["p-4 md:p-8"]))) == 12
  {
    JoinSnoc(["p-4"], "md:p-8", " ");
    assert ["p-4"] + ["md:p-8"] == ["p-4", "md:p-8"];
    assert "p-4" + " " + "md:p-8" == "p-4 md:p-8";
    assert ClassIndent("") == "  ";
    SingleClusterOwnLine("p-4 md:p-8", "  ", WrapIndent("", "same"), 7);
    RenderSingle("  ", "p-4 md:p-8");
    assert "  " + "p-4 md:p-8" == "  p-4 md:p-8";
    JsLengthOfBmp("  p-4 md:p-8");
    JsLengthOfBmp("p-4");
    JsLengthOfBmp("md:p-8");
  }
}
