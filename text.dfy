/**
 * Strings as the formatter sees them: whitespace-separated tokens, joining with a
 * separator, and the facts that connect the two (splitting what was joined gives
 * back the parts).
 */
module Text {

  /** JavaScript's `\s` character class. */
  predicate IsSpace(c: char) {
    c == ' ' || c == '\t' || c == '\n' || c == '\r' || c == '\U{000B}' || c == '\U{000C}' ||
    c == '\U{00A0}' || c == '\U{1680}' || ('\U{2000}' <= c <= '\U{200A}') ||
    c == '\U{2028}' || c == '\U{2029}' || c == '\U{202F}' || c == '\U{205F}' ||
    c == '\U{3000}' || c == '\U{FEFF}'
  }

  /** A string made of whitespace only (possibly empty), such as an indentation. */
  predicate IsBlank(s: string) {
    forall i | 0 <= i < |s| :: IsSpace(s[i])
  }

  /** A non-empty string without whitespace: what a class token looks like. */
  predicate IsWord(s: string) {
    |s| > 0 && forall i | 0 <= i < |s| :: !IsSpace(s[i])
  }

  predicate IsPrefix(p: string, s: string) {
    |p| <= |s| && s[..|p|] == p
  }

  /** `xs.indexOf(x)`: the first position of `x` in `xs`, or -1. */
  function IndexOf<T(==)>(xs: seq<T>, x: T): (i: int)
    ensures -1 <= i < |xs|
    ensures i >= 0 ==> xs[i] == x && x !in xs[..i]
    ensures i == -1 <==> x !in xs
  {
    if xs == [] then -1
    else if xs[0] == x then 0
    else
      var k := IndexOf(xs[1..], x);
      assert xs == [xs[0]] + xs[1..];
      if k == -1 then -1
      else
        assert xs[..k + 1] == [xs[0]] + xs[1..][..k];
        k + 1
  }

  /** Length of the leading run of non-whitespace characters. */
  function WordLength(s: string): (n: nat)
    ensures n <= |s|
    ensures forall i | 0 <= i < n :: !IsSpace(s[i])
    ensures n < |s| ==> IsSpace(s[n])
  {
    if s == [] || IsSpace(s[0]) then 0 else 1 + WordLength(s[1..])
  }

  /**
   * `s.split(/\s+/).filter(c => c.length > 0)`: the maximal runs of
   * non-whitespace characters of `s`, in order.
   */
  function Tokens(s: string): (ts: seq<string>)
    ensures forall t | t in ts :: IsWord(t)
    ensures ts == [] <==> IsBlank(s)
    decreases |s|
  {
    if s == [] then []
    else if IsSpace(s[0]) then
      var ts := Tokens(s[1..]);
      assert IsBlank(s[1..]) ==> IsBlank(s) by {
        if IsBlank(s[1..]) {
          forall i | 0 <= i < |s| ensures IsSpace(s[i]) {
            if i > 0 { assert s[i] == s[1..][i - 1]; }
          }
        }
      }
      ts
    else
      var n := WordLength(s);
      assert IsWord(s[..n]);
      [s[..n]] + Tokens(s[n..])
  }

  /** `parts.join(sep)`. */
  function Join(parts: seq<string>, sep: string): string
  {
    if |parts| == 0 then ""
    else if |parts| == 1 then parts[0]
    else Join(parts[..|parts| - 1], sep) + sep + parts[|parts| - 1]
  }

  /** Joining one more part appends the separator and the part. */
  lemma JoinSnoc(parts: seq<string>, last: string, sep: string)
    requires parts != []
    ensures Join(parts + [last], sep) == Join(parts, sep) + sep + last
  {
    assert (parts + [last])[..|parts|] == parts;
  }

  /** The concatenation of a sequence of sequences, in order. */
  function Flatten<T>(ss: seq<seq<T>>): seq<T>
  {
    if ss == [] then [] else Flatten(ss[..|ss| - 1]) + ss[|ss| - 1]
  }

  /** `f` applied to each string of `ss`, the results concatenated in order. */
  function ConcatMap<T>(ss: seq<string>, f: string -> seq<T>): seq<T>
  {
    if ss == [] then [] else ConcatMap(ss[..|ss| - 1], f) + f(ss[|ss| - 1])
  }

  /** The tokens of each string of `ss`, one after the other. */
  function TokensOfAll(ss: seq<string>): seq<string>
  {
    ConcatMap(ss, Tokens)
  }

  /** Dropping the last element of `a + b`, for a non-empty `b`, drops the last element of `b`. */
  lemma AppendLast<T>(a: seq<T>, b: seq<T>)
    requires b != []
    ensures (a + b)[..|a + b| - 1] == a + b[..|b| - 1]
    ensures (a + b)[|a + b| - 1] == b[|b| - 1]
  {
  }

  lemma {:induction false} ConcatMapAppend<T>(a: seq<string>, b: seq<string>, f: string -> seq<T>)
    ensures ConcatMap(a + b, f) == ConcatMap(a, f) + ConcatMap(b, f)
    decreases |b|
  {
    if b == [] {
      assert a + b == a;
    } else {
      AppendLast(a, b);
      ConcatMapAppend(a, b[..|b| - 1], f);
    }
  }

  lemma ConcatMapLast<T>(ss: seq<string>, f: string -> seq<T>)
    requires ss != []
    ensures ConcatMap(ss, f) == ConcatMap(ss[..|ss| - 1], f) + f(ss[|ss| - 1])
  {
  }

  lemma TokensOfAllLast(ss: seq<string>)
    requires ss != []
    ensures TokensOfAll(ss) == TokensOfAll(ss[..|ss| - 1]) + Tokens(ss[|ss| - 1])
  {
    ConcatMapLast(ss, Tokens);
  }

  lemma TokensOfAllAppend(a: seq<string>, b: seq<string>)
    ensures TokensOfAll(a + b) == TokensOfAll(a) + TokensOfAll(b)
  {
    ConcatMapAppend(a, b, Tokens);
  }

  /** Whitespace in front of a string adds no token. */
  lemma {:induction false} TokensAfterBlank(w: string, s: string)
    requires IsBlank(w)
    ensures Tokens(w + s) == Tokens(s)
    decreases |w|
  {
    if w != [] {
      assert (w + s)[1..] == w[1..] + s;
      TokensAfterBlank(w[1..], s);
    } else {
      assert w + s == s;
    }
  }

  lemma TokensOfSpaceFirst(s: string)
    requires s != [] && IsSpace(s[0])
    ensures Tokens(s) == Tokens(s[1..])
  {
  }

  /** A word followed by nothing or by whitespace is the first token. */
  lemma TokensOfWordThen(w: string, t: string)
    requires IsWord(w) && (t == [] || IsSpace(t[0]))
    ensures Tokens(w + t) == [w] + Tokens(t)
  {
    var s := w + t;
    assert forall i | 0 <= i < |w| :: s[i] == w[i];
    assert t != [] ==> s[|w|] == t[0];
    assert WordLength(s) == |w|;
    assert s[..|w|] == w && s[|w|..] == t;
  }

  /** One whitespace character splits the token list in two. */
  lemma {:induction false} TokensAtSpace(a: string, c: char, b: string)
    requires IsSpace(c)
    ensures Tokens(a + [c] + b) == Tokens(a) + Tokens(b)
    decreases |a|
  {
    var s := a + [c] + b;
    if a == [] {
      assert s[1..] == b;
      TokensOfSpaceFirst(s);
    } else if IsSpace(a[0]) {
      assert s[1..] == a[1..] + [c] + b;
      TokensAtSpace(a[1..], c, b);
      TokensOfSpaceFirst(s);
      TokensOfSpaceFirst(a);
    } else {
      var n := WordLength(a);
      var w, r := a[..n], a[n..];
      assert a == w + r;
      TokensAtSpace(r, c, b);
      TokensAtSpaceAfterWord(w, r, c, b);
    }
  }

  /** The step of `TokensAtSpace` past a leading word `w`. */
  lemma TokensAtSpaceAfterWord(w: string, r: string, c: char, b: string)
    requires IsWord(w) && (r == [] || IsSpace(r[0])) && IsSpace(c)
    requires Tokens(r + [c] + b) == Tokens(r) + Tokens(b)
    ensures Tokens(w + r + [c] + b) == Tokens(w + r) + Tokens(b)
  {
    TokensOfWordThen(w, r);
    ConcatAssoc(w, r + [c], b);
    ConcatAssoc(w, r, [c]);
    assert (r + [c] + b)[0] == if r == [] then c else r[0];
    TokensOfWordThen(w, r + [c] + b);
    ConcatAssoc([w], Tokens(r), Tokens(b));
  }

  lemma ConcatAssoc<T>(x: seq<T>, y: seq<T>, z: seq<T>)
    ensures x + (y + z) == (x + y) + z
  {
  }

  /** A non-empty run of whitespace splits the token list in two. */
  lemma TokensAtBlank(a: string, sep: string, b: string)
    requires IsBlank(sep) && sep != []
    ensures Tokens(a + sep + b) == Tokens(a) + Tokens(b)
  {
    assert a + sep + b == a + [sep[0]] + (sep[1..] + b);
    TokensAtSpace(a, sep[0], sep[1..] + b);
    TokensAfterBlank(sep[1..], b);
  }

  /** A word is its own single token. */
  lemma TokensOfWord(w: string)
    requires IsWord(w)
    ensures Tokens(w) == [w]
  {
    assert w + [] == w;
    TokensOfWordThen(w, []);
  }

  /** Splitting what was joined with whitespace gives the tokens of each part. */
  lemma {:induction false} TokensOfJoin(parts: seq<string>, sep: string)
    requires IsBlank(sep) && sep != []
    ensures Tokens(Join(parts, sep)) == TokensOfAll(parts)
    decreases |parts|
  {
    if |parts| == 1 {
      TokensOfAllLast(parts);
      assert parts[..0] == [];
    } else if |parts| > 1 {
      var init := parts[..|parts| - 1];
      TokensOfAllLast(parts);
      TokensOfJoin(init, sep);
      TokensAtBlank(Join(init, sep), sep, parts[|parts| - 1]);
    }
  }

  /** The tokens of words, each its own token, are the words themselves. */
  lemma {:induction false} ConcatMapOfSingletons(ws: seq<string>, f: string -> seq<string>)
    requires forall w | w in ws :: f(w) == [w]
    ensures ConcatMap(ws, f) == ws
    decreases |ws|
  {
    if ws != [] {
      var init := ws[..|ws| - 1];
      assert forall w | w in init :: w in ws;
      ConcatMapOfSingletons(init, f);
      assert ws == init + [ws[|ws| - 1]];
    }
  }

  lemma TokensOfAllWords(ws: seq<string>)
    requires forall w | w in ws :: IsWord(w)
    ensures TokensOfAll(ws) == ws
  {
    forall w | w in ws
      ensures Tokens(w) == [w]
    {
      TokensOfWord(w);
    }
    ConcatMapOfSingletons(ws, Tokens);
  }

  /** `ws.join(' ')` of class tokens splits back into exactly those tokens. */
  lemma JoinSplitRoundTrip(ws: seq<string>)
    requires forall w | w in ws :: IsWord(w)
    ensures Tokens(Join(ws, " ")) == ws
  {
    TokensOfJoin(ws, " ");
    TokensOfAllWords(ws);
  }
}
