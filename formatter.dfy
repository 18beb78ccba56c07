/**
 * `formatTailwindClasses`: splits a class attribute into tokens, groups them by
 * category, groups each category by property, and lays the clusters out one
 * per line or packed into lines of bounded width.
 */
module Formatter {
  import opened Text
  import opened ClassName
  import opened Classifier
  import opened Grouper

  // ---------------------------------------------------------------------------
  // Lines
  // ---------------------------------------------------------------------------

  /** `.length` of a JavaScript string: UTF-16 code units, two for a character above U+FFFF. */
  function JsLength(s: string): (n: nat)
    ensures |s| <= n <= 2 * |s|
  {
    if s == [] then 0 else JsLength(s[..|s| - 1]) + (if s[|s| - 1] as int > 0xFFFF then 2 else 1)
  }

  lemma {:induction false} JsLengthAppend(a: string, b: string)
    ensures JsLength(a + b) == JsLength(a) + JsLength(b)
    decreases |b|
  {
    if b == [] {
      assert a + b == a;
    } else {
      assert (a + b)[..|a + b| - 1] == a + b[..|b| - 1];
      JsLengthAppend(a, b[..|b| - 1]);
    }
  }

  /** A string of characters up to U+FFFF is as long in UTF-16 code units as in characters. */
  lemma {:induction false} JsLengthOfBmp(s: string)
    requires forall i | 0 <= i < |s| :: s[i] as int <= 0xFFFF
    ensures JsLength(s) == |s|
    decreases |s|
  {
    if s != [] {
      JsLengthOfBmp(s[..|s| - 1]);
    }
  }

  /** An output line: its indentation and the joined clusters (`respGroupStr`) it holds. */
  datatype Line = Line(indent: string, groups: seq<string>)

  /** The text of a line: the indentation, then the clusters separated by one space. */
  function Render(l: Line): string
  {
    l.indent + Join(l.groups, " ")
  }

  function RenderAll(ls: seq<Line>): seq<string>
  {
    seq(|ls|, i requires 0 <= i < |ls| => Render(ls[i]))
  }

  /** The clusters of the lines, in order. */
  function AllGroups(ls: seq<Line>): seq<string>
  {
    if ls == [] then [] else AllGroups(ls[..|ls| - 1]) + ls[|ls| - 1].groups
  }

  lemma AllGroupsSnoc(ls: seq<Line>, l: Line)
    ensures AllGroups(ls + [l]) == AllGroups(ls) + l.groups
  {
    assert (ls + [l])[..|ls|] == ls;
  }

  // ---------------------------------------------------------------------------
  // Laying out one category
  // ---------------------------------------------------------------------------

  /** The state of the packing loop: the lines already pushed, and `categoryLine`. */
  datatype Packing = Packing(done: seq<Line>, current: Line)

  /**
   * The packing of a category's joined clusters when the width is not 0: the
   * first cluster opens a line at `classIndent`; each next one joins the
   * current line when the line with it is at most `width` long, and otherwise
   * the current line is pushed and the cluster opens a line at `wrapIndent`.
   */
  function Pack(strs: seq<string>, classIndent: string, wrapIndent: string, width: int): (p: Packing)
    requires strs != []
    ensures p.current.groups != []
    decreases |strs|
  {
    if |strs| == 1 then Packing([], Line(classIndent, [strs[0]]))
    else
      var p := Pack(strs[..|strs| - 1], classIndent, wrapIndent, width);
      var s := strs[|strs| - 1];
      if JsLength(Render(p.current) + " " + s) <= width then
        Packing(p.done, Line(p.current.indent, p.current.groups + [s]))
      else
        Packing(p.done + [p.current], Line(wrapIndent, [s]))
  }

  /** All the lines of a packing, the current one last. */
  function PackedLines(p: Packing): seq<Line>
  {
    p.done + [p.current]
  }

  /** Adding a cluster to a line that has some renders as the line, a space and the cluster. */
  lemma RenderExtend(l: Line, s: string)
    requires l.groups != []
    ensures Render(Line(l.indent, l.groups + [s])) == Render(l) + " " + s
  {
    JoinSnoc(l.groups, s, " ");
  }

  /** One more cluster either joins the current line or opens a new one. */
  lemma PackSnoc(strs: seq<string>, s: string, classIndent: string, wrapIndent: string, width: int)
    requires strs != []
    ensures var q := Pack(strs, classIndent, wrapIndent, width);
      Pack(strs + [s], classIndent, wrapIndent, width) ==
        if JsLength(Render(q.current) + " " + s) <= width then Packing(q.done, Line(q.current.indent, q.current.groups + [s]))
        else Packing(q.done + [q.current], Line(wrapIndent, [s]))
  {
    assert (strs + [s])[..|strs|] == strs;
  }

  lemma PackSplit(strs: seq<string>)
    requires |strs| > 1
    ensures strs == strs[..|strs| - 1] + [strs[|strs| - 1]]
  {
  }

  /** Packing neither drops nor reorders clusters: the lines hold `strs`, in order. */
  lemma {:induction false} PackKeepsOrder(strs: seq<string>, classIndent: string, wrapIndent: string, width: int)
    requires strs != []
    ensures AllGroups(PackedLines(Pack(strs, classIndent, wrapIndent, width))) == strs
    decreases |strs|
  {
    var p := Pack(strs, classIndent, wrapIndent, width);
    if |strs| == 1 {
      AllGroupsSnoc([], p.current);
    } else {
      var init, last := strs[..|strs| - 1], strs[|strs| - 1];
      PackSplit(strs);
      var q := Pack(init, classIndent, wrapIndent, width);
      PackKeepsOrder(init, classIndent, wrapIndent, width);
      PackSnoc(init, last, classIndent, wrapIndent, width);
      AllGroupsSnoc(q.done, q.current);
      AllGroupsSnoc(p.done, p.current);
      if JsLength(Render(q.current) + " " + last) > width {
        AllGroupsSnoc(q.done, q.current);
      }
    }
  }

  /** The first line of a category starts at `classIndent`, every later one at `wrapIndent`. */
  lemma {:induction false} PackIndents(strs: seq<string>, classIndent: string, wrapIndent: string, width: int)
    requires strs != []
    ensures var ls := PackedLines(Pack(strs, classIndent, wrapIndent, width));
      ls[0].indent == classIndent && forall k | 0 < k < |ls| :: ls[k].indent == wrapIndent
    decreases |strs|
  {
    if |strs| > 1 {
      var init, last := strs[..|strs| - 1], strs[|strs| - 1];
      PackSplit(strs);
      PackIndents(init, classIndent, wrapIndent, width);
      PackSnoc(init, last, classIndent, wrapIndent, width);
      var q := Pack(init, classIndent, wrapIndent, width);
      var qs, ps := PackedLines(q), PackedLines(Pack(strs, classIndent, wrapIndent, width));
      if JsLength(Render(q.current) + " " + last) <= width {
        assert |ps| == |qs|;
        forall k | 0 <= k < |ps| ensures ps[k].indent == qs[k].indent {
          if k < |q.done| {
            assert ps[k] == qs[k];
          }
        }
      } else {
        assert ps == qs + [Line(wrapIndent, [last])];
      }
    }
  }

  /** Every line holds at least one cluster. */
  lemma {:induction false} PackNonEmpty(strs: seq<string>, classIndent: string, wrapIndent: string, width: int)
    requires strs != []
    ensures forall l | l in PackedLines(Pack(strs, classIndent, wrapIndent, width)) :: l.groups != []
    decreases |strs|
  {
    if |strs| > 1 {
      var init, last := strs[..|strs| - 1], strs[|strs| - 1];
      PackSplit(strs);
      PackNonEmpty(init, classIndent, wrapIndent, width);
      PackSnoc(init, last, classIndent, wrapIndent, width);
    }
  }

  /** A line that holds two or more clusters is at most `width` long. */
  lemma {:induction false} PackFits(strs: seq<string>, classIndent: string, wrapIndent: string, width: int)
    requires strs != []
    ensures forall l | l in PackedLines(Pack(strs, classIndent, wrapIndent, width)) ::
      |l.groups| >= 2 ==> JsLength(Render(l)) <= width
    decreases |strs|
  {
    if |strs| > 1 {
      var init, last := strs[..|strs| - 1], strs[|strs| - 1];
      PackSplit(strs);
      PackFits(init, classIndent, wrapIndent, width);
      PackSnoc(init, last, classIndent, wrapIndent, width);
      RenderExtend(Pack(init, classIndent, wrapIndent, width).current, last);
    }
  }

  /**
   * A line was ended only because the next cluster did not fit: the line
   * before each later line, a space and that line's first cluster are longer
   * than `width`.
   */
  lemma {:induction false} PackBreaks(strs: seq<string>, classIndent: string, wrapIndent: string, width: int)
    requires strs != []
    ensures var ls := PackedLines(Pack(strs, classIndent, wrapIndent, width));
      forall k | 0 < k < |ls| :: ls[k].groups != [] && width < JsLength(Render(ls[k - 1]) + " " + ls[k].groups[0])
    decreases |strs|
  {
    if |strs| > 1 {
      var init, last := strs[..|strs| - 1], strs[|strs| - 1];
      PackSplit(strs);
      PackBreaks(init, classIndent, wrapIndent, width);
      PackSnoc(init, last, classIndent, wrapIndent, width);
      var q := Pack(init, classIndent, wrapIndent, width);
      var qs, ps := PackedLines(q), PackedLines(Pack(strs, classIndent, wrapIndent, width));
      if JsLength(Render(q.current) + " " + last) <= width {
        assert |ps| == |qs|;
        forall k | 0 < k < |ps|
          ensures ps[k].groups != [] && width < JsLength(Render(ps[k - 1]) + " " + ps[k].groups[0])
        {
          assert ps[k - 1] == qs[k - 1];
          if k < |q.done| {
            assert ps[k] == qs[k];
          } else {
            assert ps[k].groups == qs[k].groups + [last];
          }
        }
      } else {
        assert ps == qs + [Line(wrapIndent, [last])];
      }
    }
  }

  /**
   * The lines of one category, given its joined clusters: one line per cluster
   * at `classIndent` when `width` is 0; otherwise the packed lines, the last
   * one pushed only when `width` is positive (and the line is not empty).
   */
  function CategoryLines(strs: seq<string>, classIndent: string, wrapIndent: string, width: int): seq<Line>
  {
    if width == 0 then seq(|strs|, i requires 0 <= i < |strs| => Line(classIndent, [strs[i]]))
    else if strs == [] then []
    else
      var p := Pack(strs, classIndent, wrapIndent, width);
      if width > 0 && |Render(p.current)| > 0 then PackedLines(p) else p.done
  }

  /**
   * At a positive width the first cluster of a category opens its line whatever
   * its length: the width bounds only lines that hold two or more clusters.
   */
  lemma SingleClusterOwnLine(s: string, classIndent: string, wrapIndent: string, width: int)
    requires width > 0 && s != []
    ensures CategoryLines([s], classIndent, wrapIndent, width) == [Line(classIndent, [s])]
  {
    var p := Pack([s], classIndent, wrapIndent, width);
    assert Render(p.current) == classIndent + s;
  }

  /** `respGroup.join(' ')` for each cluster. */
  function Joined(clusters: seq<seq<string>>): seq<string>
  {
    seq(|clusters|, i requires 0 <= i < |clusters| => Join(clusters[i], " "))
  }

  lemma RenderAllSnoc(ls: seq<Line>, l: Line)
    ensures RenderAll(ls + [l]) == RenderAll(ls) + [Render(l)]
  {
  }

  lemma JoinedSnoc(clusters: seq<seq<string>>, n: nat)
    requires n < |clusters|
    ensures Joined(clusters[..n + 1]) == Joined(clusters[..n]) + [Join(clusters[n], " ")]
  {
  }

  /** With width 0, one more cluster is one more line: `classIndent + respGroupStr`. */
  lemma UnboundedSnoc(strs: seq<string>, s: string, classIndent: string, wrapIndent: string)
    ensures RenderAll(CategoryLines(strs + [s], classIndent, wrapIndent, 0)) ==
      RenderAll(CategoryLines(strs, classIndent, wrapIndent, 0)) + [classIndent + s]
  {
    assert Render(Line(classIndent, [s])) == classIndent + s;
    assert CategoryLines(strs + [s], classIndent, wrapIndent, 0) ==
      CategoryLines(strs, classIndent, wrapIndent, 0) + [Line(classIndent, [s])];
    RenderAllSnoc(CategoryLines(strs, classIndent, wrapIndent, 0), Line(classIndent, [s]));
  }

  /**
   * The loop over the clusters of one category in `formatTailwindClasses`
   * (`responsiveGroups.forEach`) and the push of the last line after it.
   */
  method LayOutCategory(responsiveGroups: seq<seq<string>>, classIndent: string, wrapIndent: string, maxLineWidth: int)
    returns (categoryLines: seq<string>)
    ensures categoryLines == RenderAll(CategoryLines(Joined(responsiveGroups), classIndent, wrapIndent, maxLineWidth))
  {
    categoryLines := [];
    var categoryLine := "";
    ghost var done: seq<Line> := [];
    ghost var current := Line("", []);
    for index := 0 to |responsiveGroups|
      invariant maxLineWidth == 0 ==>
        categoryLines == RenderAll(CategoryLines(Joined(responsiveGroups[..index]), classIndent, wrapIndent, 0))
      invariant maxLineWidth != 0 && index == 0 ==> categoryLines == [] && categoryLine == "" && done == []
      invariant maxLineWidth != 0 && index > 0 ==>
        Pack(Joined(responsiveGroups[..index]), classIndent, wrapIndent, maxLineWidth) == Packing(done, current) &&
        categoryLines == RenderAll(done) && categoryLine == Render(current)
    {
      var respGroupStr := Join(responsiveGroups[index], " ");
      ghost var strs := Joined(responsiveGroups[..index]);
      JoinedSnoc(responsiveGroups, index);
      if maxLineWidth == 0 {
        UnboundedSnoc(strs, respGroupStr, classIndent, wrapIndent);
        categoryLines := categoryLines + [classIndent + respGroupStr];
      } else if index == 0 {
        categoryLine := classIndent + respGroupStr;
        current := Line(classIndent, [respGroupStr]);
      } else {
        PackSnoc(strs, respGroupStr, classIndent, wrapIndent, maxLineWidth);
        var testLine := categoryLine + " " + respGroupStr;
        RenderExtend(current, respGroupStr);
        if JsLength(testLine) <= maxLineWidth {
          categoryLine := testLine;
          current := Line(current.indent, current.groups + [respGroupStr]);
        } else {
          categoryLines := categoryLines + [categoryLine];
          RenderAllSnoc(done, current);
          done := done + [current];
          categoryLine := wrapIndent + respGroupStr;
          current := Line(wrapIndent, [respGroupStr]);
        }
      }
    }
    assert responsiveGroups[..|responsiveGroups|] == responsiveGroups;
    if maxLineWidth > 0 && |categoryLine| > 0 {
      RenderAllSnoc(done, current);
      categoryLines := categoryLines + [categoryLine];
    }
  }

  // ---------------------------------------------------------------------------
  // The whole attribute
  // ---------------------------------------------------------------------------

  /** `classIndent`: two spaces more than the attribute. */
  function ClassIndent(attributeIndent: string): string
  {
    attributeIndent + "  "
  }

  /** `wrapIndent`: two more spaces again for the style "extra", otherwise `classIndent`. */
  function WrapIndent(attributeIndent: string, wrapIndentStyle: string): string
  {
    if wrapIndentStyle == "extra" then ClassIndent(attributeIndent) + "  " else ClassIndent(attributeIndent)
  }

  // The functions below take the classification as a parameter `classify`;
  // `FormatSpec` instantiates it with `Classify`. The layout does not depend
  // on how tokens are classified, and neither do its proofs.

  /** `grouped[group]`: the tokens of one category, in input order. */
  function CategoryClasses(classes: seq<string>, classify: string -> Category, c: Category): seq<string>
  {
    Bucket(classes, classify, c)
  }

  /** The lines of one category. */
  function CategoryBlock(classes: seq<string>, classify: string -> Category, c: Category, attributeIndent: string,
                         width: int, wrapIndentStyle: string): seq<Line>
  {
    CategoryLines(Joined(Clusters(CategoryClasses(classes, classify, c))),
      ClassIndent(attributeIndent), WrapIndent(attributeIndent, wrapIndentStyle), width)
  }

  /** The lines of each category, in `groupOrder`. */
  function Blocks(classes: seq<string>, classify: string -> Category, attributeIndent: string, width: int,
                  wrapIndentStyle: string): seq<seq<Line>>
  {
    seq(|GroupOrder|, g requires 0 <= g < |GroupOrder| =>
      CategoryBlock(classes, classify, GroupOrder[g], attributeIndent, width, wrapIndentStyle))
  }

  /** All the lines of the formatted attribute (`lines`). */
  function FormatLines(classes: seq<string>, classify: string -> Category, attributeIndent: string, width: int,
                       wrapIndentStyle: string): seq<Line>
  {
    Flatten(Blocks(classes, classify, attributeIndent, width, wrapIndentStyle))
  }

  /**
   * The returned text around the lines: a leading newline, the lines separated
   * by newlines, and a newline and the attribute's indentation when the quote
   * closes on its own line.
   */
  function Assemble(lines: seq<string>, attributeIndent: string, closeQuoteOnNewLine: bool): string
  {
    if closeQuoteOnNewLine then "\n" + Join(lines, "\n") + "\n" + attributeIndent else "\n" + Join(lines, "\n")
  }

  /** What `formatTailwindClasses` returns. */
  function FormatSpec(classString: string, attributeIndent: string, closeQuoteOnNewLine: bool, width: int,
                      wrapIndentStyle: string): string
  {
    Assemble(RenderAll(FormatLines(Tokens(classString), Classify, attributeIndent, width, wrapIndentStyle)),
      attributeIndent, closeQuoteOnNewLine)
  }

  /**
   * The first loop of `formatTailwindClasses`: `grouped`, the tokens under each
   * key that occurs (the key is `classifyTailwindClass` in the source).
   */
  method GroupInto<K(==,!new)>(classes: seq<string>, key: string -> K) returns (grouped: map<K, seq<string>>)
    ensures forall c :: c in grouped ==> grouped[c] == Bucket(classes, key, c)
    ensures forall c :: c !in grouped ==> Bucket(classes, key, c) == []
  {
    grouped := map[];
    for i := 0 to |classes|
      invariant forall c :: c in grouped ==> grouped[c] == Bucket(classes[..i], key, c)
      invariant forall c :: c !in grouped ==> Bucket(classes[..i], key, c) == []
    {
      PrefixSnoc(classes, i);
      BucketSnoc(classes[..i], key, classes[i]);
      var className := classes[i];
      var group := key(className);
      if group !in grouped {
        grouped := grouped[group := []];
      }
      grouped := grouped[group := grouped[group] + [className]];
    }
    assert classes[..|classes|] == classes;
  }

  /** A category without tokens contributes no line. */
  lemma EmptyCategoryBlock(classes: seq<string>, classify: string -> Category, c: Category, attributeIndent: string,
                           width: int, wrapIndentStyle: string)
    requires CategoryClasses(classes, classify, c) == []
    ensures CategoryBlock(classes, classify, c, attributeIndent, width, wrapIndentStyle) == []
  {
    assert Clusters([]) == [];
  }

  /**
   * `formatTailwindClasses`. `baseIndent` is accepted and not used, as in the
   * source.
   */
  method Format(classString: string, baseIndent: string, attributeIndent: string, closeQuoteOnNewLine: bool,
                maxLineWidth: int, wrapIndentStyle: string) returns (formatted: string)
    requires forall x | x in Tokens(classString) :: OrdinaryKey(Property(x))
    ensures formatted == FormatSpec(classString, attributeIndent, closeQuoteOnNewLine, maxLineWidth, wrapIndentStyle)
  {
    var classes := Tokens(classString);
    var grouped := GroupInto(classes, Classify);
    var lines := LayOutCategories(classes, Classify, grouped, attributeIndent, maxLineWidth, wrapIndentStyle);
    assert lines == RenderAll(FormatLines(classes, Classify, attributeIndent, maxLineWidth, wrapIndentStyle));
    if closeQuoteOnNewLine {
      formatted := "\n" + Join(lines, "\n") + "\n" + attributeIndent;
    } else {
      formatted := "\n" + Join(lines, "\n");
    }
  }

  /** The loop of `formatTailwindClasses` over `groupOrder`, which fills `lines`. */
  method LayOutCategories(classes: seq<string>, ghost classify: string -> Category, grouped: map<Category, seq<string>>,
                          attributeIndent: string, maxLineWidth: int, wrapIndentStyle: string)
    returns (lines: seq<string>)
    requires forall x | x in classes :: OrdinaryKey(Property(x))
    requires forall c :: c in grouped ==> grouped[c] == CategoryClasses(classes, classify, c)
    requires forall c :: c !in grouped ==> CategoryClasses(classes, classify, c) == []
    ensures lines == RenderAll(FormatLines(classes, classify, attributeIndent, maxLineWidth, wrapIndentStyle))
  {
    lines := [];
    var classIndent := attributeIndent + "  ";
    var wrapIndent := if wrapIndentStyle == "extra" then classIndent + "  " else classIndent;
    ghost var blocks := Blocks(classes, classify, attributeIndent, maxLineWidth, wrapIndentStyle);
    for g := 0 to |GroupOrder|
      invariant lines == RenderAll(Flatten(blocks[..g]))
    {
      var group := GroupOrder[g];
      var categoryLines: seq<string> := [];
      if group in grouped && |grouped[group]| > 0 {
        var responsiveGroups := GroupResponsive(grouped[group]);
        categoryLines := LayOutCategory(responsiveGroups, classIndent, wrapIndent, maxLineWidth);
      } else {
        EmptyCategoryBlock(classes, classify, group, attributeIndent, maxLineWidth, wrapIndentStyle);
      }
      assert categoryLines == RenderAll(blocks[g]);
      FlattenPrefixSnoc(blocks, g);
      RenderAllAppend(Flatten(blocks[..g]), blocks[g]);
      lines := lines + categoryLines;
    }
    assert blocks[..|GroupOrder|] == blocks;
  }

  lemma FlattenPrefixSnoc<T>(ss: seq<seq<T>>, n: nat)
    requires n < |ss|
    ensures Flatten(ss[..n + 1]) == Flatten(ss[..n]) + ss[n]
  {
    assert ss[..n + 1][..n] == ss[..n];
  }

  lemma RenderAllAppend(a: seq<Line>, b: seq<Line>)
    ensures RenderAll(a + b) == RenderAll(a) + RenderAll(b)
  {
  }
}
