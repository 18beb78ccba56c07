/**
 * What `formatTailwindClasses` promises about its output: no class is lost or
 * added, categories come out in `groupOrder`, each line belongs to one category,
 * lines are indented and packed as configured, and an empty attribute gives no
 * line.
 */
module FormatProperties {
  import opened Text
  import opened ClassName
  import opened Classifier
  import opened Grouper
  import opened Formatter

  // ---------------------------------------------------------------------------
  // Generic facts about concatenations
  // ---------------------------------------------------------------------------

  /** Whatever occurs in a concatenation occurs in one of its parts. */
  lemma {:induction false} InFlatten<T>(ss: seq<seq<T>>, x: T)
    requires x in Flatten(ss)
    ensures exists g | 0 <= g < |ss| :: x in ss[g]
    decreases |ss|
  {
    var init := ss[..|ss| - 1];
    if x !in ss[|ss| - 1] {
      InFlatten(init, x);
      var g :| 0 <= g < |init| && x in init[g];
      assert ss[g] == init[g];
    }
  }

  /** The concatenation of empty parts is empty. */
  lemma {:induction false} FlattenEmpties<T>(ss: seq<seq<T>>)
    requires forall g | 0 <= g < |ss| :: ss[g] == []
    ensures Flatten(ss) == []
    decreases |ss|
  {
    if ss != [] {
      FlattenEmpties(ss[..|ss| - 1]);
    }
  }

  /**
   * When every element of the g-th part has rank g, the concatenation is
   * ordered by rank, and every rank is below the number of parts.
   */
  lemma {:induction false} FlattenRanked(bs: seq<seq<string>>, rank: string -> int)
    requires forall g, x | 0 <= g < |bs| && x in bs[g] :: rank(x) == g
    ensures forall x | x in Flatten(bs) :: rank(x) < |bs|
    ensures forall i, j | 0 <= i < j < |Flatten(bs)| :: rank(Flatten(bs)[i]) <= rank(Flatten(bs)[j])
    decreases |bs|
  {
    if bs != [] {
      var init, last := bs[..|bs| - 1], bs[|bs| - 1];
      FlattenRanked(init, rank);
      var a, f := Flatten(init), Flatten(bs);
      assert f == a + last;
      forall x | x in f ensures rank(x) < |bs| {
        if x !in a {
          assert x in last;
        }
      }
      forall i, j | 0 <= i < j < |f| ensures rank(f[i]) <= rank(f[j]) {
        if j < |a| {
          assert f[i] == a[i] && f[j] == a[j];
          assert rank(a[i]) <= rank(a[j]);
        } else {
          assert f[j] == last[j - |a|] && last[j - |a|] in bs[|bs| - 1];
          assert rank(f[j]) == |bs| - 1;
          if i < |a| {
            assert f[i] == a[i] && a[i] in a;
            assert rank(a[i]) < |init|;
          } else {
            assert f[i] == last[i - |a|] && last[i - |a|] in bs[|bs| - 1];
          }
        }
      }
    }
  }

  /** Each token of one of the strings is a token of all of them. */
  lemma {:induction false} TokensOfAllContains(ss: seq<string>, k: nat)
    requires k < |ss|
    ensures forall t | t in Tokens(ss[k]) :: t in TokensOfAll(ss)
    decreases |ss|
  {
    TokensOfAllLast(ss);
    if k < |ss| - 1 {
      TokensOfAllContains(ss[..|ss| - 1], k);
    }
  }

  // ---------------------------------------------------------------------------
  // From lines back to tokens
  // ---------------------------------------------------------------------------

  /** Lines indented with whitespace split into exactly the tokens of their clusters. */
  lemma {:induction false} TokensOfRenderAll(ls: seq<Line>)
    requires forall k | 0 <= k < |ls| :: IsBlank(ls[k].indent)
    ensures TokensOfAll(RenderAll(ls)) == TokensOfAll(AllGroups(ls))
    decreases |ls|
  {
    if ls != [] {
      var init, l := ls[..|ls| - 1], ls[|ls| - 1];
      assert ls == init + [l];
      TokensOfRenderAll(init);
      RenderAllSnoc(init, l);
      TokensOfAllAppend(RenderAll(init), [Render(l)]);
      TokensOfAllAppend(AllGroups(init), l.groups);
      TokensAfterBlank(l.indent, Join(l.groups, " "));
      TokensOfJoin(l.groups, " ");
      assert [Render(l)][..0] == [];
    }
  }

  /** Joined clusters of class tokens split back into the clusters' tokens, in order. */
  lemma {:induction false} TokensOfJoined(cs: seq<seq<string>>)
    requires forall w | w in Flatten(cs) :: IsWord(w)
    ensures TokensOfAll(Joined(cs)) == Flatten(cs)
    decreases |cs|
  {
    if cs != [] {
      var init := cs[..|cs| - 1];
      JoinedSnoc(cs, |cs| - 1);
      assert cs[..|cs|] == cs;
      TokensOfJoined(init);
      TokensOfAllAppend(Joined(init), [Join(cs[|cs| - 1], " ")]);
      JoinSplitRoundTrip(cs[|cs| - 1]);
      assert [Join(cs[|cs| - 1], " ")][..0] == [];
    }
  }

  /** The two indentations are whitespace when the attribute's is, and never empty. */
  lemma IndentsBlank(attributeIndent: string, wrapIndentStyle: string)
    requires IsBlank(attributeIndent)
    ensures IsBlank(ClassIndent(attributeIndent)) && IsBlank(WrapIndent(attributeIndent, wrapIndentStyle))
  {
    var ci := ClassIndent(attributeIndent);
    assert forall i | 0 <= i < |ci| :: ci[i] == if i < |attributeIndent| then attributeIndent[i] else ' ';
    var wi := WrapIndent(attributeIndent, wrapIndentStyle);
    assert forall i | 0 <= i < |wi| :: wi[i] == if i < |ci| then ci[i] else ' ';
  }

  // ---------------------------------------------------------------------------
  // One category
  // ---------------------------------------------------------------------------

  /** With width 0 the lines hold the clusters, one each. */
  lemma {:induction false} UnboundedKeeps(strs: seq<string>, classIndent: string, wrapIndent: string)
    ensures AllGroups(CategoryLines(strs, classIndent, wrapIndent, 0)) == strs
    decreases |strs|
  {
    if strs != [] {
      var init, last := strs[..|strs| - 1], strs[|strs| - 1];
      UnboundedKeeps(init, classIndent, wrapIndent);
      assert CategoryLines(strs, classIndent, wrapIndent, 0) ==
        CategoryLines(init, classIndent, wrapIndent, 0) + [Line(classIndent, [last])];
      AllGroupsSnoc(CategoryLines(init, classIndent, wrapIndent, 0), Line(classIndent, [last]));
    }
  }

  /**
   * The first line of a category is at `classIndent`; the later ones are at
   * `wrapIndent`, or at `classIndent` when the width is 0.
   */
  lemma CategoryLinesIndents(strs: seq<string>, classIndent: string, wrapIndent: string, width: int)
    ensures var ls := CategoryLines(strs, classIndent, wrapIndent, width);
      (ls != [] ==> ls[0].indent == classIndent) &&
      forall k | 0 < k < |ls| :: ls[k].indent == if width == 0 then classIndent else wrapIndent
  {
    if width != 0 && strs != [] {
      var p := Pack(strs, classIndent, wrapIndent, width);
      PackIndents(strs, classIndent, wrapIndent, width);
      assert forall k | 0 <= k < |p.done| :: p.done[k] == PackedLines(p)[k];
    }
  }

  /**
   * When the width is not negative and the indentations are not empty, the
   * lines of a category hold all its joined clusters in order: the last line
   * is always pushed.
   */
  lemma CategoryLinesKeep(strs: seq<string>, classIndent: string, wrapIndent: string, width: int)
    requires width >= 0 && classIndent != [] && wrapIndent != []
    ensures AllGroups(CategoryLines(strs, classIndent, wrapIndent, width)) == strs
  {
    if width == 0 {
      UnboundedKeeps(strs, classIndent, wrapIndent);
    } else if strs != [] {
      var p := Pack(strs, classIndent, wrapIndent, width);
      PackIndents(strs, classIndent, wrapIndent, width);
      var ls := PackedLines(p);
      assert p.current == ls[|ls| - 1];
      assert |Render(p.current)| >= |p.current.indent| > 0;
      PackKeepsOrder(strs, classIndent, wrapIndent, width);
    }
  }

  /** With a negative width no cluster fits beside another, and the last one is never pushed. */
  lemma NegativeWidthDropsLastCluster(strs: seq<string>, classIndent: string, wrapIndent: string, width: int)
    requires width < 0 && strs != []
    ensures AllGroups(CategoryLines(strs, classIndent, wrapIndent, width)) == strs[..|strs| - 1]
  {
    var p := Pack(strs, classIndent, wrapIndent, width);
    if |strs| > 1 {
      PackSplit(strs);
      PackSnoc(strs[..|strs| - 1], strs[|strs| - 1], classIndent, wrapIndent, width);
    }
    assert p.current.groups == [strs[|strs| - 1]];
    PackKeepsOrder(strs, classIndent, wrapIndent, width);
    AllGroupsSnoc(p.done, p.current);
    assert AllGroups(p.done) + [strs[|strs| - 1]] == strs;
    assert strs == strs[..|strs| - 1] + [strs[|strs| - 1]];
  }

  /** The tokens a category contributes to the output: its clusters, one after the other. */
  function CategoryTokens(classes: seq<string>, classify: string -> Category, c: Category): seq<string>
  {
    Flatten(Clusters(CategoryClasses(classes, classify, c)))
  }

  /** The tokens of a category's output are exactly the tokens of that category. */
  lemma CategoryTokensOfCategory(classes: seq<string>, classify: string -> Category, c: Category)
    ensures multiset(CategoryTokens(classes, classify, c)) == multiset(CategoryClasses(classes, classify, c))
    ensures forall x | x in CategoryTokens(classes, classify, c) :: x in classes && classify(x) == c
  {
    ClustersArePermutation(CategoryClasses(classes, classify, c), Property);
    forall x | x in CategoryTokens(classes, classify, c) ensures x in classes && classify(x) == c {
      assert x in multiset(CategoryTokens(classes, classify, c));
      assert x in CategoryClasses(classes, classify, c);
    }
  }

  /**
   * A category's lines hold its joined clusters, all of them, in the order of
   * the clusters, whatever the width as long as it is not negative.
   */
  lemma BlockHoldsClusters(classes: seq<string>, classify: string -> Category, c: Category, attributeIndent: string,
                           width: int, wrapIndentStyle: string)
    requires width >= 0
    ensures AllGroups(CategoryBlock(classes, classify, c, attributeIndent, width, wrapIndentStyle)) ==
      Joined(Clusters(CategoryClasses(classes, classify, c)))
  {
    CategoryLinesKeep(Joined(Clusters(CategoryClasses(classes, classify, c))),
      ClassIndent(attributeIndent), WrapIndent(attributeIndent, wrapIndentStyle), width);
  }

  /** The text of a category's lines splits into that category's clusters, in order. */
  lemma BlockTokens(classes: seq<string>, classify: string -> Category, c: Category, attributeIndent: string,
                    width: int, wrapIndentStyle: string)
    requires forall x | x in classes :: IsWord(x)
    requires IsBlank(attributeIndent) && width >= 0
    ensures TokensOfAll(RenderAll(CategoryBlock(classes, classify, c, attributeIndent, width, wrapIndentStyle))) ==
      CategoryTokens(classes, classify, c)
  {
    var cs := Clusters(CategoryClasses(classes, classify, c));
    var ci, wi := ClassIndent(attributeIndent), WrapIndent(attributeIndent, wrapIndentStyle);
    var ls := CategoryLines(Joined(cs), ci, wi, width);
    IndentsBlank(attributeIndent, wrapIndentStyle);
    CategoryLinesIndents(Joined(cs), ci, wi, width);
    TokensOfRenderAll(ls);
    BlockHoldsClusters(classes, classify, c, attributeIndent, width, wrapIndentStyle);
    CategoryTokensOfCategory(classes, classify, c);
    TokensOfJoined(cs);
  }

  /** Every token on a line of a category's block belongs to that category. */
  lemma LinesStayInCategory(classes: seq<string>, classify: string -> Category, c: Category, attributeIndent: string,
                            width: int, wrapIndentStyle: string)
    requires forall x | x in classes :: IsWord(x)
    requires IsBlank(attributeIndent) && width >= 0
    ensures forall l | l in CategoryBlock(classes, classify, c, attributeIndent, width, wrapIndentStyle) ::
      forall t | t in Tokens(Render(l)) :: classify(t) == c
  {
    var ls := CategoryBlock(classes, classify, c, attributeIndent, width, wrapIndentStyle);
    BlockTokens(classes, classify, c, attributeIndent, width, wrapIndentStyle);
    CategoryTokensOfCategory(classes, classify, c);
    forall l | l in ls ensures forall t | t in Tokens(Render(l)) :: classify(t) == c {
      var k :| 0 <= k < |ls| && ls[k] == l;
      TokensOfAllContains(RenderAll(ls), k);
    }
  }

  /** With width 0: one line per property of the category, each at `classIndent` holding one cluster. */
  lemma UnboundedBlock(classes: seq<string>, classify: string -> Category, c: Category, attributeIndent: string,
                       wrapIndentStyle: string)
    ensures var ls := CategoryBlock(classes, classify, c, attributeIndent, 0, wrapIndentStyle);
      |ls| == |Properties(CategoryClasses(classes, classify, c))| &&
      forall l | l in ls :: l.indent == ClassIndent(attributeIndent) && |l.groups| == 1
  {
  }

  /**
   * With a positive width: every line holds a cluster; a line with two or more
   * clusters fits the width; and a line ends only where the next cluster would
   * not have fitted on it.
   */
  lemma BoundedBlock(classes: seq<string>, classify: string -> Category, c: Category, attributeIndent: string,
                     width: int, wrapIndentStyle: string)
    requires width > 0
    ensures var ls := CategoryBlock(classes, classify, c, attributeIndent, width, wrapIndentStyle);
      (forall l | l in ls :: l.groups != [] && (|l.groups| >= 2 ==> JsLength(Render(l)) <= width)) &&
      forall k | 0 < k < |ls| :: ls[k].groups != [] && width < JsLength(Render(ls[k - 1]) + " " + ls[k].groups[0])
  {
    var strs := Joined(Clusters(CategoryClasses(classes, classify, c)));
    var ci, wi := ClassIndent(attributeIndent), WrapIndent(attributeIndent, wrapIndentStyle);
    if strs != [] {
      var p := Pack(strs, ci, wi, width);
      PackIndents(strs, ci, wi, width);
      var ls := PackedLines(p);
      assert p.current == ls[|ls| - 1];
      assert |Render(p.current)| >= |p.current.indent| > 0;
      PackNonEmpty(strs, ci, wi, width);
      PackFits(strs, ci, wi, width);
      PackBreaks(strs, ci, wi, width);
    }
  }

  // ---------------------------------------------------------------------------
  // All the lines
  // ---------------------------------------------------------------------------

  /** The tokens of each category's output, in `groupOrder`. */
  function GroupedTokens(classes: seq<string>, classify: string -> Category): seq<seq<string>>
  {
    seq(|GroupOrder|, g requires 0 <= g < |GroupOrder| => CategoryTokens(classes, classify, GroupOrder[g]))
  }

  lemma {:induction false} LinesTokensUpTo(classes: seq<string>, classify: string -> Category, attributeIndent: string,
                                           width: int, wrapIndentStyle: string, n: nat)
    requires forall x | x in classes :: IsWord(x)
    requires IsBlank(attributeIndent) && width >= 0
    requires n <= |GroupOrder|
    ensures TokensOfAll(RenderAll(Flatten(Blocks(classes, classify, attributeIndent, width, wrapIndentStyle)[..n]))) ==
      Flatten(GroupedTokens(classes, classify)[..n])
  {
    var blocks := Blocks(classes, classify, attributeIndent, width, wrapIndentStyle);
    var gt := GroupedTokens(classes, classify);
    if n > 0 {
      LinesTokensUpTo(classes, classify, attributeIndent, width, wrapIndentStyle, n - 1);
      FlattenPrefixSnoc(blocks, n - 1);
      FlattenPrefixSnoc(gt, n - 1);
      RenderAllAppend(Flatten(blocks[..n - 1]), blocks[n - 1]);
      TokensOfAllAppend(RenderAll(Flatten(blocks[..n - 1])), RenderAll(blocks[n - 1]));
      BlockTokens(classes, classify, GroupOrder[n - 1], attributeIndent, width, wrapIndentStyle);
    }
  }

  /** The text of all the lines splits into the clusters of each category, categories in `groupOrder`. */
  lemma LinesKeepTokens(classes: seq<string>, classify: string -> Category, attributeIndent: string, width: int,
                        wrapIndentStyle: string)
    requires forall x | x in classes :: IsWord(x)
    requires IsBlank(attributeIndent) && width >= 0
    ensures TokensOfAll(RenderAll(FormatLines(classes, classify, attributeIndent, width, wrapIndentStyle))) ==
      Flatten(GroupedTokens(classes, classify))
  {
    var blocks := Blocks(classes, classify, attributeIndent, width, wrapIndentStyle);
    LinesTokensUpTo(classes, classify, attributeIndent, width, wrapIndentStyle, |GroupOrder|);
    assert blocks[..|GroupOrder|] == blocks;
    assert GroupedTokens(classes, classify)[..|GroupOrder|] == GroupedTokens(classes, classify);
  }

  /** The grouped tokens are a permutation of the classes, whatever the classification. */
  lemma GroupedTokensArePermutation(classes: seq<string>, classify: string -> Category)
    ensures multiset(Flatten(GroupedTokens(classes, classify))) == multiset(classes)
  {
    var gt := GroupedTokens(classes, classify);
    var bs := BucketsFor(classes, classify, GroupOrder);
    MultisetOfFlatten(gt);
    forall g | 0 <= g < |gt| ensures multiset(gt[g]) == multiset(bs[g]) {
      CategoryTokensOfCategory(classes, classify, GroupOrder[g]);
    }
    MultisetOfAllPointwise(gt, bs);
    GroupOrderIsPermutation();
    BucketsCover(classes, classify, GroupOrder);
  }

  /** In the grouped tokens no token comes after one of a later category. */
  lemma GroupedTokensInCategoryOrder(classes: seq<string>, classify: string -> Category)
    ensures var f := Flatten(GroupedTokens(classes, classify));
      forall i, j | 0 <= i < j < |f| :: GroupRank(classify(f[i])) <= GroupRank(classify(f[j]))
  {
    var gt := GroupedTokens(classes, classify);
    var rank := (x: string) => GroupRank(classify(x)) as int;
    forall g, x | 0 <= g < |gt| && x in gt[g] ensures rank(x) == g {
      CategoryTokensOfCategory(classes, classify, GroupOrder[g]);
    }
    FlattenRanked(gt, rank);
  }

  /** Classifying the grouped tokens again finds, for each category, what that category contributed. */
  lemma RegroupCategory(classes: seq<string>, classify: string -> Category, c: Category)
    ensures CategoryClasses(Flatten(GroupedTokens(classes, classify)), classify, c) == CategoryTokens(classes, classify, c)
  {
    var gt := GroupedTokens(classes, classify);
    forall j, x | 0 <= j < |gt| && x in gt[j] ensures classify(x) == GroupOrder[j] {
      CategoryTokensOfCategory(classes, classify, GroupOrder[j]);
    }
    GroupOrderIsPermutation();
    assert Keyed(gt, classify, GroupOrder);
    BucketOfFlatten(gt, classify, GroupOrder, GroupRank(c));
  }

  /** Laying out the grouped tokens again gives the same lines. */
  lemma RegroupLines(classes: seq<string>, classify: string -> Category, attributeIndent: string, width: int,
                     wrapIndentStyle: string)
    ensures FormatLines(Flatten(GroupedTokens(classes, classify)), classify, attributeIndent, width, wrapIndentStyle) ==
      FormatLines(classes, classify, attributeIndent, width, wrapIndentStyle)
  {
    var t := Flatten(GroupedTokens(classes, classify));
    forall g | 0 <= g < |GroupOrder|
      ensures CategoryBlock(t, classify, GroupOrder[g], attributeIndent, width, wrapIndentStyle) ==
        CategoryBlock(classes, classify, GroupOrder[g], attributeIndent, width, wrapIndentStyle)
    {
      RegroupCategory(classes, classify, GroupOrder[g]);
      GroupingIdempotent(CategoryClasses(classes, classify, GroupOrder[g]));
    }
    assert Blocks(t, classify, attributeIndent, width, wrapIndentStyle) ==
      Blocks(classes, classify, attributeIndent, width, wrapIndentStyle);
  }

  /** With width 0 every line is one cluster at `classIndent`. */
  lemma UnboundedLines(classes: seq<string>, classify: string -> Category, attributeIndent: string,
                       wrapIndentStyle: string)
    ensures forall l | l in FormatLines(classes, classify, attributeIndent, 0, wrapIndentStyle) ::
      l.indent == ClassIndent(attributeIndent) && |l.groups| == 1
  {
    var blocks := Blocks(classes, classify, attributeIndent, 0, wrapIndentStyle);
    forall l | l in FormatLines(classes, classify, attributeIndent, 0, wrapIndentStyle)
      ensures l.indent == ClassIndent(attributeIndent) && |l.groups| == 1
    {
      InFlatten(blocks, l);
      var g :| 0 <= g < |blocks| && l in blocks[g];
      UnboundedBlock(classes, classify, GroupOrder[g], attributeIndent, wrapIndentStyle);
    }
  }

  /** No classes, no lines. */
  lemma NoClassesNoLines(classify: string -> Category, attributeIndent: string, width: int, wrapIndentStyle: string)
    ensures FormatLines([], classify, attributeIndent, width, wrapIndentStyle) == []
  {
    var blocks := Blocks([], classify, attributeIndent, width, wrapIndentStyle);
    forall g | 0 <= g < |blocks| ensures blocks[g] == [] {
      EmptyCategoryBlock([], classify, GroupOrder[g], attributeIndent, width, wrapIndentStyle);
    }
    FlattenEmpties(blocks);
  }

  // ---------------------------------------------------------------------------
  // The returned text
  // ---------------------------------------------------------------------------

  /** The lines joined with newlines, after a newline, split into the tokens of the lines. */
  lemma TokensOfOpen(lines: seq<string>)
    ensures Tokens("\n" + Join(lines, "\n")) == TokensOfAll(lines)
  {
    TokensOfJoin(lines, "\n");
    TokensAfterBlank("\n", Join(lines, "\n"));
  }

  /** The closing newline and whitespace indentation add no token. */
  lemma TokensOfClosed(lines: seq<string>, attributeIndent: string)
    requires IsBlank(attributeIndent)
    ensures Tokens("\n" + Join(lines, "\n") + "\n" + attributeIndent) == TokensOfAll(lines)
  {
    var j := Join(lines, "\n");
    var tail := "\n" + attributeIndent;
    assert IsBlank(tail) by {
      assert forall i | 0 <= i < |tail| :: tail[i] == if i == 0 then '\n' else attributeIndent[i - 1];
    }
    TokensAtBlank("\n" + j, tail, "");
    assert "\n" + j + tail + "" == "\n" + j + "\n" + attributeIndent;
    TokensOfOpen(lines);
  }

  /** Whatever is assembled splits into the tokens of the lines. */
  lemma TokensOfAssemble(lines: seq<string>, attributeIndent: string, closeQuoteOnNewLine: bool)
    requires IsBlank(attributeIndent)
    ensures Tokens(Assemble(lines, attributeIndent, closeQuoteOnNewLine)) == TokensOfAll(lines)
  {
    if closeQuoteOnNewLine {
      TokensOfClosed(lines, attributeIndent);
    } else {
      TokensOfOpen(lines);
    }
  }

  /**
   * Token conservation: with a whitespace indentation and a width that is not
   * negative, the formatted attribute splits into the clusters of each
   * category, categories in `groupOrder`.
   */
  lemma FormatKeepsTokens(classString: string, attributeIndent: string, closeQuoteOnNewLine: bool, width: int,
                          wrapIndentStyle: string)
    requires IsBlank(attributeIndent) && width >= 0
    ensures Tokens(FormatSpec(classString, attributeIndent, closeQuoteOnNewLine, width, wrapIndentStyle)) ==
      Flatten(GroupedTokens(Tokens(classString), Classify))
  {
    var lines := RenderAll(FormatLines(Tokens(classString), Classify, attributeIndent, width, wrapIndentStyle));
    TokensOfAssemble(lines, attributeIndent, closeQuoteOnNewLine);
    LinesKeepTokens(Tokens(classString), Classify, attributeIndent, width, wrapIndentStyle);
  }

  /** No class is lost or duplicated: the output's tokens are a permutation of the input's. */
  lemma FormatIsPermutation(classString: string, attributeIndent: string, closeQuoteOnNewLine: bool, width: int,
                            wrapIndentStyle: string)
    requires IsBlank(attributeIndent) && width >= 0
    ensures multiset(Tokens(FormatSpec(classString, attributeIndent, closeQuoteOnNewLine, width, wrapIndentStyle))) ==
      multiset(Tokens(classString))
  {
    FormatKeepsTokens(classString, attributeIndent, closeQuoteOnNewLine, width, wrapIndentStyle);
    GroupedTokensArePermutation(Tokens(classString), Classify);
  }

  /** Categories come out in `groupOrder`: no token follows one of a later category. */
  lemma FormatKeepsCategoryOrder(classString: string, attributeIndent: string, closeQuoteOnNewLine: bool, width: int,
                                 wrapIndentStyle: string)
    requires IsBlank(attributeIndent) && width >= 0
    ensures var ts := Tokens(FormatSpec(classString, attributeIndent, closeQuoteOnNewLine, width, wrapIndentStyle));
      forall i, j | 0 <= i < j < |ts| :: GroupRank(Classify(ts[i])) <= GroupRank(Classify(ts[j]))
  {
    FormatKeepsTokens(classString, attributeIndent, closeQuoteOnNewLine, width, wrapIndentStyle);
    GroupedTokensInCategoryOrder(Tokens(classString), Classify);
  }

  /** Formatting an attribute that was already formatted, with the same settings, changes nothing. */
  lemma FormatIdempotent(classString: string, attributeIndent: string, closeQuoteOnNewLine: bool, width: int,
                         wrapIndentStyle: string)
    requires IsBlank(attributeIndent) && width >= 0
    ensures var formatted := FormatSpec(classString, attributeIndent, closeQuoteOnNewLine, width, wrapIndentStyle);
      FormatSpec(formatted, attributeIndent, closeQuoteOnNewLine, width, wrapIndentStyle) == formatted
  {
    FormatKeepsTokens(classString, attributeIndent, closeQuoteOnNewLine, width, wrapIndentStyle);
    RegroupLines(Tokens(classString), Classify, attributeIndent, width, wrapIndentStyle);
  }

  /** An attribute without classes formats to a bare newline (and the closing indentation). */
  lemma FormatEmpty(classString: string, attributeIndent: string, closeQuoteOnNewLine: bool, width: int,
                    wrapIndentStyle: string)
    requires IsBlank(classString)
    ensures FormatSpec(classString, attributeIndent, closeQuoteOnNewLine, width, wrapIndentStyle) ==
      if closeQuoteOnNewLine then "\n\n" + attributeIndent else "\n"
  {
    NoClassesNoLines(Classify, attributeIndent, width, wrapIndentStyle);
  }

  /** Closing the quote on its own line appends a newline and the attribute's indentation, and nothing else. */
  lemma CloseQuoteAppendsIndent(lines: seq<string>, attributeIndent: string)
    ensures Assemble(lines, attributeIndent, true) == Assemble(lines, attributeIndent, false) + "\n" + attributeIndent
    ensures Assemble(lines, attributeIndent, false)[..1] == "\n"
  {
  }
}
