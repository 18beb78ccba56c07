/**
 * `groupResponsiveClasses`: the tokens of one category partitioned by property,
 * in first-seen order, each partition sorted stably by breakpoint weight.
 */
module Grouper {
  import opened Text
  import opened ClassName

  // ---------------------------------------------------------------------------
  // Keys of a plain JavaScript object
  // ---------------------------------------------------------------------------

  /**
   * Names that every plain object already has through `Object.prototype`. For
   * such a property `propertyGroups[property]` is a function or an object, so
   * the `push` that follows fails.
   */
  const InheritedKeys: set<string> := {
    "constructor", "__proto__", "__defineGetter__", "__defineSetter__", "__lookupGetter__",
    "__lookupSetter__", "hasOwnProperty", "isPrototypeOf", "propertyIsEnumerable", "toString",
    "toLocaleString", "valueOf"
  }

  predicate IsDigit(c: char) {
    '0' <= c <= '9'
  }

  function DecimalValue(p: string): nat
    requires forall i | 0 <= i < |p| :: IsDigit(p[i])
  {
    if p == [] then 0
    else
      assert IsDigit(p[|p| - 1]);
      DecimalValue(p[..|p| - 1]) * 10 + (p[|p| - 1] as int - '0' as int)
  }

  /** A canonical array index ("0", "7", "42", below 2^32 - 1): `Object.keys` lists these first, in numeric order. */
  predicate IsArrayIndexKey(p: string) {
    |p| > 0 && (forall i | 0 <= i < |p| :: IsDigit(p[i])) && (p == "0" || p[0] != '0') &&
    DecimalValue(p) < 0xFFFF_FFFF
  }

  /** A key that a plain object keeps in insertion order and does not already own. */
  predicate OrdinaryKey(p: string) {
    p !in InheritedKeys && !IsArrayIndexKey(p)
  }

  // ---------------------------------------------------------------------------
  // Stable sort by weight
  // ---------------------------------------------------------------------------
  // The sort is stated for any weight function; the grouping sorts by
  // `BreakpointWeight`.

  predicate SortedBy(s: seq<string>, weight: string -> int) {
    forall i, j | 0 <= i < j < |s| :: weight(s[i]) <= weight(s[j])
  }

  /** The tokens of `s` with weight `w`, in their order in `s`. */
  function WithWeight(s: seq<string>, weight: string -> int, w: int): seq<string>
  {
    if s == [] then []
    else (if weight(s[0]) == w then [s[0]] else []) + WithWeight(s[1..], weight, w)
  }

  /** A token that weighs no more than the head of a sorted sequence can go in front of it. */
  lemma ConsSorted(y: string, s: seq<string>, weight: string -> int)
    requires SortedBy(s, weight)
    requires s == [] || weight(y) <= weight(s[0])
    ensures SortedBy([y] + s, weight)
  {
    forall i, j | 0 <= i < j < |[y] + s|
      ensures weight(([y] + s)[i]) <= weight(([y] + s)[j])
    {
      if i == 0 && j > 1 {
        assert weight(s[0]) <= weight(s[j - 1]);
      }
    }
  }

  lemma WithWeightCons(y: string, s: seq<string>, weight: string -> int)
    ensures forall w ::
      WithWeight([y] + s, weight, w) == (if weight(y) == w then [y] else []) + WithWeight(s, weight, w)
  {
    assert ([y] + s)[1..] == s;
  }

  /** Inserts `x` in front of the first token of `t` that does not weigh less. */
  function InsertBy(x: string, t: seq<string>, weight: string -> int): (r: seq<string>)
    ensures multiset(r) == multiset(t) + multiset{x}
  {
    if t == [] || weight(x) <= weight(t[0]) then [x] + t
    else
      assert t == [t[0]] + t[1..];
      [t[0]] + InsertBy(x, t[1..], weight)
  }

  /** Inserting into a sorted sequence keeps it sorted. */
  lemma {:induction false} InsertBySorted(x: string, t: seq<string>, weight: string -> int)
    requires SortedBy(t, weight)
    ensures SortedBy(InsertBy(x, t, weight), weight)
    ensures InsertBy(x, t, weight)[0] == x || (t != [] && InsertBy(x, t, weight)[0] == t[0])
    decreases |t|
  {
    if t == [] || weight(x) <= weight(t[0]) {
      ConsSorted(x, t, weight);
    } else {
      InsertBySorted(x, t[1..], weight);
      ConsSorted(t[0], InsertBy(x, t[1..], weight), weight);
    }
  }

  /** Inserting `x` puts it first among the tokens of its own weight and moves no other token. */
  lemma {:induction false} InsertByStable(x: string, t: seq<string>, weight: string -> int)
    ensures forall w ::
      WithWeight(InsertBy(x, t, weight), weight, w) ==
        if weight(x) == w then [x] + WithWeight(t, weight, w) else WithWeight(t, weight, w)
    decreases |t|
  {
    if t == [] || weight(x) <= weight(t[0]) {
      WithWeightCons(x, t, weight);
    } else {
      InsertByStable(x, t[1..], weight);
      WithWeightCons(t[0], InsertBy(x, t[1..], weight), weight);
      WithWeightCons(t[0], t[1..], weight);
      assert t == [t[0]] + t[1..];
    }
  }

  /** Insertion sort by weight: the result holds the same tokens. */
  function SortBy(s: seq<string>, weight: string -> int): (r: seq<string>)
    ensures multiset(r) == multiset(s)
  {
    if s == [] then []
    else
      assert s == [s[0]] + s[1..];
      InsertBy(s[0], SortBy(s[1..], weight), weight)
  }

  /** The sort orders its result by weight. */
  lemma {:induction false} SortBySorted(s: seq<string>, weight: string -> int)
    ensures SortedBy(SortBy(s, weight), weight)
    decreases |s|
  {
    if s != [] {
      SortBySorted(s[1..], weight);
      InsertBySorted(s[0], SortBy(s[1..], weight), weight);
    }
  }

  /** The sort is stable: the tokens of each weight keep their input order. */
  lemma {:induction false} SortByStable(s: seq<string>, weight: string -> int)
    ensures forall w :: WithWeight(SortBy(s, weight), weight, w) == WithWeight(s, weight, w)
    decreases |s|
  {
    if s != [] {
      SortByStable(s[1..], weight);
      InsertByStable(s[0], SortBy(s[1..], weight), weight);
      WithWeightCons(s[0], s[1..], weight);
      assert s == [s[0]] + s[1..];
    }
  }

  /** Sorting what is already sorted changes nothing. */
  lemma {:induction false} SortByOfSorted(s: seq<string>, weight: string -> int)
    requires SortedBy(s, weight)
    ensures SortBy(s, weight) == s
  {
    if s != [] {
      assert SortedBy(s[1..], weight);
      SortByOfSorted(s[1..], weight);
      assert s == [s[0]] + s[1..];
      assert s[1..] == [] || weight(s[0]) <= weight(s[1]);
    }
  }

  /**
   * `group.sort((a, b) => getBreakpointWeight(a) - getBreakpointWeight(b))`;
   * `Array.prototype.sort` is stable.
   */
  function SortByWeight(s: seq<string>): seq<string>
  {
    SortBy(s, BreakpointWeight)
  }

  // ---------------------------------------------------------------------------
  // Partition by property
  // ---------------------------------------------------------------------------
  // The partition is stated for any key function; the formatter's key is
  // `Property`. Keeping the key abstract here keeps the facts about class
  // names out of the reasoning about the partition.

  /** The tokens of `s` whose key is `p`, in their order in `s`. */
  function Bucket<K(==)>(s: seq<string>, key: string -> K, p: K): (b: seq<string>)
    ensures forall x | x in b :: x in s && key(x) == p
    ensures forall x | x in s && key(x) == p :: x in b
  {
    if s == [] then []
    else Bucket(s[..|s| - 1], key, p) + (if key(s[|s| - 1]) == p then [s[|s| - 1]] else [])
  }

  lemma PrefixSnoc<T>(s: seq<T>, i: nat)
    requires i < |s|
    ensures s[..i + 1] == s[..i] + [s[i]]
  {
  }

  /** Appending a token appends it to the bucket of its key and to no other. */
  lemma BucketSnoc<K>(s: seq<string>, key: string -> K, x: string)
    ensures forall q :: Bucket(s + [x], key, q) == Bucket(s, key, q) + (if key(x) == q then [x] else [])
  {
    assert (s + [x])[..|s|] == s;
  }

  /** The distinct keys of `s`, in the order they are first seen. */
  function Keys<K(==,!new)>(s: seq<string>, key: string -> K): (ps: seq<K>)
    ensures forall i, j | 0 <= i < j < |ps| :: ps[i] != ps[j]
    ensures forall p :: p in ps <==> Bucket(s, key, p) != []
  {
    if s == [] then []
    else
      var ps := Keys(s[..|s| - 1], key);
      var p := key(s[|s| - 1]);
      assert forall q :: Bucket(s, key, q) == Bucket(s[..|s| - 1], key, q) + (if p == q then [s[|s| - 1]] else []);
      if p in ps then ps else ps + [p]
  }

  /** The bucket of each key of `ks`, in the order of `ks`. */
  function BucketsFor<K(==)>(s: seq<string>, key: string -> K, ks: seq<K>): seq<seq<string>>
  {
    seq(|ks|, i requires 0 <= i < |ks| => Bucket(s, key, ks[i]))
  }

  /** The sorted bucket of each key of `ps`, in the order of `ps`. */
  function ClustersFor(s: seq<string>, key: string -> string, ps: seq<string>): seq<seq<string>>
  {
    seq(|ps|, i requires 0 <= i < |ps| => SortByWeight(Bucket(s, key, ps[i])))
  }

  /** The partition of `s` by `key`: one sorted cluster per key, in first-seen order. */
  function ClustersBy(s: seq<string>, key: string -> string): seq<seq<string>>
  {
    ClustersFor(s, key, Keys(s, key))
  }

  /** The distinct properties of `s`, first seen first (the keys of `propertyGroups`). */
  function Properties(s: seq<string>): seq<string>
  {
    Keys(s, Property)
  }

  /** What `groupResponsiveClasses` returns for `s`. */
  function Clusters(s: seq<string>): seq<seq<string>>
  {
    ClustersBy(s, Property)
  }

  /**
   * One cluster: it is non-empty, every token in it has its key, it is sorted
   * by weight, and tokens of equal weight keep their input order.
   */
  lemma ClusterShape(s: seq<string>, key: string -> string, i: nat)
    requires i < |Keys(s, key)|
    ensures var c, p := ClustersBy(s, key)[i], Keys(s, key)[i];
      c != [] &&
      (forall x | x in c :: key(x) == p) &&
      SortedBy(c, BreakpointWeight) &&
      (forall w :: WithWeight(c, BreakpointWeight, w) == WithWeight(Bucket(s, key, p), BreakpointWeight, w))
  {
    var c, p := ClustersBy(s, key)[i], Keys(s, key)[i];
    var b := Bucket(s, key, p);
    SortBySorted(b, BreakpointWeight);
    SortByStable(b, BreakpointWeight);
    assert multiset(c) == multiset(b);
    assert b[0] in multiset(c);
    forall x | x in c ensures key(x) == p {
      assert x in multiset(b);
    }
  }

  /**
   * The shape of the grouping: one non-empty cluster per distinct key, keys
   * distinct and in first-seen order, each cluster as `ClusterShape` says.
   */
  lemma ClustersShape(s: seq<string>, key: string -> string)
    ensures |ClustersBy(s, key)| == |Keys(s, key)|
    ensures forall i | 0 <= i < |ClustersBy(s, key)| ::
      ClustersBy(s, key)[i] != [] &&
      (forall x | x in ClustersBy(s, key)[i] :: key(x) == Keys(s, key)[i]) &&
      SortedBy(ClustersBy(s, key)[i], BreakpointWeight)
    ensures forall i, j | 0 <= i < j < |ClustersBy(s, key)| :: Keys(s, key)[i] != Keys(s, key)[j]
  {
    forall i | 0 <= i < |Keys(s, key)|
      ensures ClustersBy(s, key)[i] != []
      ensures forall x | x in ClustersBy(s, key)[i] :: key(x) == Keys(s, key)[i]
      ensures SortedBy(ClustersBy(s, key)[i], BreakpointWeight)
    {
      ClusterShape(s, key, i);
    }
  }

  /** First-seen order: the keys of a prefix of the input come first, in the same order. */
  lemma {:induction false} KeysGrowByAppending(s: seq<string>, key: string -> string, n: nat)
    requires n <= |s|
    ensures |Keys(s[..n], key)| <= |Keys(s, key)|
    ensures Keys(s[..n], key) == Keys(s, key)[..|Keys(s[..n], key)|]
    decreases |s| - n
  {
    if n < |s| {
      KeysGrowByAppending(s, key, n + 1);
      var t := s[..n + 1];
      assert t[..|t| - 1] == s[..n];
      var a, b, c := Keys(s[..n], key), Keys(t, key), Keys(s, key);
      assert a == b[..|a|];
      assert b == c[..|b|];
      assert b[..|a|] == c[..|a|];
    } else {
      assert s[..n] == s;
    }
  }

  /** All the tokens of a sequence of clusters, with multiplicity. */
  function MultisetOfAll(cs: seq<seq<string>>): multiset<string>
  {
    if cs == [] then multiset{} else MultisetOfAll(cs[..|cs| - 1]) + multiset(cs[|cs| - 1])
  }

  lemma {:induction false} MultisetOfFlatten(cs: seq<seq<string>>)
    ensures multiset(Flatten(cs)) == MultisetOfAll(cs)
    decreases |cs|
  {
    if cs != [] {
      MultisetOfFlatten(cs[..|cs| - 1]);
    }
  }

  lemma BucketsForSnoc<K>(s: seq<string>, key: string -> K, ks: seq<K>)
    requires ks != []
    ensures BucketsFor(s, key, ks) == BucketsFor(s, key, ks[..|ks| - 1]) + [Bucket(s, key, ks[|ks| - 1])]
  {
  }

  lemma MultisetOfAllSnoc(cs: seq<seq<string>>, c: seq<string>)
    ensures MultisetOfAll(cs + [c]) == MultisetOfAll(cs) + multiset(c)
  {
    assert (cs + [c])[..|cs|] == cs;
  }

  /** Appending a token to the input appends it to the bucket of its key `key(x)` and to no other. */
  lemma BucketSnocAt<K>(s: seq<string>, key: string -> K, x: string, q: K)
    ensures Bucket(s + [x], key, q) == Bucket(s, key, q) + (if key(x) == q then [x] else [])
  {
    assert (s + [x])[..|s|] == s;
  }

  /** One more input token lands in exactly the bucket of its key, if that key is listed. */
  lemma {:induction false} BucketsForAppendToken<K>(s: seq<string>, key: string -> K, x: string, ks: seq<K>)
    requires forall i, j | 0 <= i < j < |ks| :: ks[i] != ks[j]
    ensures MultisetOfAll(BucketsFor(s + [x], key, ks)) ==
      MultisetOfAll(BucketsFor(s, key, ks)) + (if key(x) in ks then multiset{x} else multiset{})
    decreases |ks|
  {
    if ks != [] {
      var init := ks[..|ks| - 1];
      var q := ks[|ks| - 1];
      LastIsNew(ks);
      InSnoc(ks, key(x));
      BucketsForAppendToken(s, key, x, init);
      BucketSnocAt(s, key, x, q);
      BucketsForSnoc(s + [x], key, ks);
      BucketsForSnoc(s, key, ks);
      AddTokenToLastBucket(BucketsFor(s, key, init), BucketsFor(s + [x], key, init),
        Bucket(s, key, q), x, key(x) in init, key(x) == q);
    }
  }

  /** Membership in a non-empty sequence: among all but the last element, or the last. */
  lemma InSnoc<T>(ks: seq<T>, y: T)
    requires ks != []
    ensures y in ks <==> y in ks[..|ks| - 1] || y == ks[|ks| - 1]
  {
    assert ks == ks[..|ks| - 1] + [ks[|ks| - 1]];
  }

  /** The step of `BucketsForAppendToken`: the new token goes to the earlier buckets or to the last one. */
  lemma AddTokenToLastBucket(bs: seq<seq<string>>, bs': seq<seq<string>>, b: seq<string>, x: string,
                             inInit: bool, isLast: bool)
    requires !(inInit && isLast)
    requires MultisetOfAll(bs') == MultisetOfAll(bs) + (if inInit then multiset{x} else multiset{})
    ensures MultisetOfAll(bs' + [b + (if isLast then [x] else [])]) ==
      MultisetOfAll(bs + [b]) + (if inInit || isLast then multiset{x} else multiset{})
  {
    MultisetOfAllSnoc(bs', b + (if isLast then [x] else []));
    MultisetOfAllSnoc(bs, b);
  }

  /**
   * Buckets for distinct keys that cover every token's key hold every token
   * exactly once.
   */
  lemma {:induction false} BucketsCover<K>(s: seq<string>, key: string -> K, ks: seq<K>)
    requires forall i, j | 0 <= i < j < |ks| :: ks[i] != ks[j]
    requires forall x | x in s :: key(x) in ks
    ensures MultisetOfAll(BucketsFor(s, key, ks)) == multiset(s)
    decreases |s|
  {
    if s == [] {
      MultisetOfAllEmpties(BucketsFor(s, key, ks));
    } else {
      var init := s[..|s| - 1];
      var x := s[|s| - 1];
      assert s == init + [x];
      assert key(x) in ks;
      BucketsCover(init, key, ks);
      BucketsForAppendToken(init, key, x, ks);
      assert MultisetOfAll(BucketsFor(init + [x], key, ks)) == multiset(init) + multiset{x};
    }
  }

  lemma {:induction false} MultisetOfAllEmpties(cs: seq<seq<string>>)
    requires forall i | 0 <= i < |cs| :: cs[i] == []
    ensures MultisetOfAll(cs) == multiset{}
    decreases |cs|
  {
    if cs != [] {
      MultisetOfAllEmpties(cs[..|cs| - 1]);
    }
  }

  /** Sequences whose elements agree as multisets hold the same tokens overall. */
  lemma {:induction false} MultisetOfAllPointwise(a: seq<seq<string>>, b: seq<seq<string>>)
    requires |a| == |b|
    requires forall i | 0 <= i < |a| :: multiset(a[i]) == multiset(b[i])
    ensures MultisetOfAll(a) == MultisetOfAll(b)
    decreases |a|
  {
    if a != [] {
      MultisetOfAllPointwise(a[..|a| - 1], b[..|b| - 1]);
    }
  }

  lemma ClustersCover(s: seq<string>, key: string -> string)
    ensures MultisetOfAll(ClustersBy(s, key)) == multiset(s)
  {
    var ks := Keys(s, key);
    forall x | x in s ensures key(x) in ks {
      assert x in Bucket(s, key, key(x));
    }
    BucketsCover(s, key, ks);
    MultisetOfAllPointwise(ClustersBy(s, key), BucketsFor(s, key, ks));
  }

  /** Every input token is in exactly one cluster: the clusters are a permutation of the input. */
  lemma ClustersArePermutation(s: seq<string>, key: string -> string)
    ensures multiset(Flatten(ClustersBy(s, key))) == multiset(s)
  {
    MultisetOfFlatten(ClustersBy(s, key));
    ClustersCover(s, key);
  }

  // ---------------------------------------------------------------------------
  // Regrouping grouped tokens
  // ---------------------------------------------------------------------------

  /** Splitting the input splits every bucket at the same place. */
  lemma {:induction false} BucketAppend<K>(a: seq<string>, b: seq<string>, key: string -> K, p: K)
    ensures Bucket(a + b, key, p) == Bucket(a, key, p) + Bucket(b, key, p)
    decreases |b|
  {
    if b == [] {
      assert a + b == a;
    } else {
      var init, last := b[..|b| - 1], b[|b| - 1];
      AppendLast(a, b);
      BucketAppend(a, init, key, p);
      ConcatAssoc(Bucket(a, key, p), Bucket(init, key, p), if key(last) == p then [last] else []);
    }
  }

  /** Tokens that all have key `q` are their own bucket for `q` and leave every other bucket empty. */
  lemma {:induction false} BucketOfUniform<K>(c: seq<string>, key: string -> K, q: K, p: K)
    requires forall x | x in c :: key(x) == q
    ensures Bucket(c, key, p) == if p == q then c else []
    decreases |c|
  {
    if c != [] {
      var init, last := c[..|c| - 1], c[|c| - 1];
      assert c == init + [last];
      BucketOfUniform(init, key, q, p);
      assert Bucket(c, key, p) == Bucket(init, key, p) + (if key(last) == p then [last] else []);
    }
  }

  /** Parts in which every token has its part's key, the keys of the parts being distinct. */
  predicate Keyed<K(==)>(cs: seq<seq<string>>, key: string -> K, ks: seq<K>) {
    |cs| == |ks| &&
    (forall j, x | 0 <= j < |cs| && x in cs[j] :: key(x) == ks[j]) &&
    (forall j, k | 0 <= j < k < |ks| :: ks[j] != ks[k])
  }

  /** Non-empty parts, each sorted by breakpoint weight. */
  predicate SortedParts(cs: seq<seq<string>>) {
    forall j | 0 <= j < |cs| :: cs[j] != [] && SortedBy(cs[j], BreakpointWeight)
  }

  /** Every prefix of keyed parts is keyed. */
  lemma KeyedPrefix<K>(cs: seq<seq<string>>, key: string -> K, ks: seq<K>, n: nat)
    requires Keyed(cs, key, ks) && n <= |cs|
    ensures Keyed(cs[..n], key, ks[..n])
  {
  }

  /** Every prefix of sorted parts is sorted. */
  lemma SortedPartsPrefix(cs: seq<seq<string>>, n: nat)
    requires SortedParts(cs) && n <= |cs|
    ensures SortedParts(cs[..n])
  {
  }

  /** Keyed parts: the concatenation has an empty bucket for a key not in `ks`. */
  lemma {:induction false} BucketOfFlattenAbsent<K>(cs: seq<seq<string>>, key: string -> K, ks: seq<K>, p: K)
    requires Keyed(cs, key, ks) && p !in ks
    ensures Bucket(Flatten(cs), key, p) == []
    decreases |cs|
  {
    if cs != [] {
      var n := |cs| - 1;
      KeyedPrefix(cs, key, ks, n);
      assert p !in ks[..n];
      BucketOfFlattenAbsent(cs[..n], key, ks[..n], p);
      BucketAppend(Flatten(cs[..n]), cs[n], key, p);
      BucketOfUniform(cs[n], key, ks[n], p);
    }
  }

  /** Keyed parts: in their concatenation the bucket of the i-th key is the i-th part. */
  lemma {:induction false} BucketOfFlatten<K>(cs: seq<seq<string>>, key: string -> K, ks: seq<K>, i: nat)
    requires Keyed(cs, key, ks) && i < |ks|
    ensures Bucket(Flatten(cs), key, ks[i]) == cs[i]
    decreases |cs|
  {
    var n := |cs| - 1;
    if i == n {
      BucketOfFlattenLast(cs, key, ks);
    } else {
      KeyedPrefix(cs, key, ks, n);
      BucketOfFlatten(cs[..n], key, ks[..n], i);
      BucketOfFlattenEarlier(cs, key, ks, i);
    }
  }

  /** The bucket of the last key is the last part. */
  lemma BucketOfFlattenLast<K>(cs: seq<seq<string>>, key: string -> K, ks: seq<K>)
    requires Keyed(cs, key, ks) && cs != []
    ensures Bucket(Flatten(cs), key, ks[|cs| - 1]) == cs[|cs| - 1]
  {
    var n := |cs| - 1;
    BucketOfLastPart(cs, key, ks, ks[n]);
    LastIsNew(ks);
    KeyedPrefix(cs, key, ks, n);
    BucketOfFlattenAbsent(cs[..n], key, ks[..n], ks[n]);
  }

  /** The bucket of an earlier key is not changed by the last part. */
  lemma BucketOfFlattenEarlier<K>(cs: seq<seq<string>>, key: string -> K, ks: seq<K>, i: nat)
    requires Keyed(cs, key, ks) && i < |cs| - 1
    requires Bucket(Flatten(cs[..|cs| - 1]), key, ks[..|cs| - 1][i]) == cs[..|cs| - 1][i]
    ensures Bucket(Flatten(cs), key, ks[i]) == cs[i]
  {
    var n := |cs| - 1;
    assert ks[..n][i] == ks[i] && cs[..n][i] == cs[i];
    assert ks[i] != ks[n];
    BucketOfLastPart(cs, key, ks, ks[i]);
  }

  /** The bucket of keyed parts: that of all but the last part, then the last part if its key matches. */
  lemma BucketOfLastPart<K>(cs: seq<seq<string>>, key: string -> K, ks: seq<K>, p: K)
    requires Keyed(cs, key, ks) && cs != []
    ensures var n := |cs| - 1;
      Bucket(Flatten(cs), key, p) == Bucket(Flatten(cs[..n]), key, p) + (if p == ks[n] then cs[n] else [])
  {
    var n := |cs| - 1;
    BucketAppend(Flatten(cs[..n]), cs[n], key, p);
    BucketOfUniform(cs[n], key, ks[n], p);
  }

  /** Appending tokens of one key adds that key at the end, unless it was seen already. */
  lemma {:induction false} KeysAppendUniform(a: seq<string>, c: seq<string>, key: string -> string, q: string)
    requires c != [] && forall x | x in c :: key(x) == q
    ensures Keys(a + c, key) == if q in Keys(a, key) then Keys(a, key) else Keys(a, key) + [q]
    decreases |c|
  {
    var init := c[..|c| - 1];
    assert (a + c)[..|a + c| - 1] == a + init;
    if init == [] {
      assert a + init == a;
    } else {
      assert forall x | x in init :: x in c;
      KeysAppendUniform(a, init, key, q);
    }
  }

  /**
   * Non-empty keyed parts: the keys of their concatenation, first seen first,
   * are the parts' keys in order.
   */
  lemma {:induction false} KeysOfFlatten(cs: seq<seq<string>>, key: string -> string, ks: seq<string>)
    requires Keyed(cs, key, ks) && SortedParts(cs)
    ensures Keys(Flatten(cs), key) == ks
    decreases |cs|
  {
    if cs != [] {
      var n := |cs| - 1;
      KeyedPrefix(cs, key, ks, n);
      SortedPartsPrefix(cs, n);
      KeysOfFlatten(cs[..n], key, ks[..n]);
      KeysOfFlattenLast(cs, key, ks);
    }
  }

  /** The inductive step of `KeysOfFlatten`: the last part brings one new key. */
  lemma KeysOfFlattenLast(cs: seq<seq<string>>, key: string -> string, ks: seq<string>)
    requires Keyed(cs, key, ks) && SortedParts(cs) && cs != []
    requires Keys(Flatten(cs[..|cs| - 1]), key) == ks[..|cs| - 1]
    ensures Keys(Flatten(cs), key) == ks
  {
    var n := |cs| - 1;
    assert cs[n] != [] && forall x | x in cs[n] :: key(x) == ks[n];
    LastIsNew(ks);
    KeysOfFlattenStep(Flatten(cs[..n]), cs[n], key, ks[..n], ks[n]);
    LastSplit(ks);
  }

  /** One more part, of one key not seen before, brings that key. */
  lemma KeysOfFlattenStep(init: seq<string>, c: seq<string>, key: string -> string, ps: seq<string>, q: string)
    requires Keys(init, key) == ps && q !in ps
    requires c != [] && forall x | x in c :: key(x) == q
    ensures Keys(init + c, key) == ps + [q]
  {
    KeysAppendUniform(init, c, key, q);
  }

  lemma LastSplit<T>(ks: seq<T>)
    requires ks != []
    ensures ks[..|ks| - 1] + [ks[|ks| - 1]] == ks
  {
  }

  /** In a sequence without repetitions the last element is not among the earlier ones. */
  lemma LastIsNew<T>(ks: seq<T>)
    requires ks != [] && forall j, k | 0 <= j < k < |ks| :: ks[j] != ks[k]
    ensures ks[|ks| - 1] !in ks[..|ks| - 1]
  {
    var n := |ks| - 1;
    forall j | 0 <= j < n ensures ks[..n][j] != ks[n] {
      assert ks[..n][j] == ks[j];
    }
  }

  /**
   * Tokens already laid out as the grouping lays them out (non-empty parts
   * sorted by weight, one key per part, keys distinct) are grouped back into
   * exactly those parts.
   */
  lemma ClustersOfGrouped(cs: seq<seq<string>>, key: string -> string, ks: seq<string>)
    requires Keyed(cs, key, ks) && SortedParts(cs)
    ensures ClustersBy(Flatten(cs), key) == cs
  {
    KeysOfFlatten(cs, key, ks);
    ClustersForGrouped(cs, key, ks);
  }

  lemma ClustersForGrouped(cs: seq<seq<string>>, key: string -> string, ks: seq<string>)
    requires Keyed(cs, key, ks) && SortedParts(cs)
    ensures ClustersFor(Flatten(cs), key, ks) == cs
  {
    var r := ClustersFor(Flatten(cs), key, ks);
    forall i | 0 <= i < |ks| ensures r[i] == cs[i] {
      ClusterOfGrouped(cs, key, ks, i);
    }
  }

  lemma ClusterOfGrouped(cs: seq<seq<string>>, key: string -> string, ks: seq<string>, i: nat)
    requires Keyed(cs, key, ks) && SortedParts(cs) && i < |ks|
    ensures SortByWeight(Bucket(Flatten(cs), key, ks[i])) == cs[i]
  {
    BucketOfFlatten(cs, key, ks, i);
    SortByOfSorted(cs[i], BreakpointWeight);
  }

  /** Grouping the flattened clusters again gives the same clusters. */
  lemma ClustersIdempotent(s: seq<string>, key: string -> string)
    ensures ClustersBy(Flatten(ClustersBy(s, key)), key) == ClustersBy(s, key)
  {
    ClustersShape(s, key);
    ClustersOfGrouped(ClustersBy(s, key), key, Keys(s, key));
  }

  /** `groupResponsiveClasses` applied to its own flattened result gives that result back. */
  lemma GroupingIdempotent(s: seq<string>)
    ensures Clusters(Flatten(Clusters(s))) == Clusters(s)
  {
    ClustersIdempotent(s, Property);
  }

  // ---------------------------------------------------------------------------
  // The grouping as the source performs it
  // ---------------------------------------------------------------------------

  /**
   * `groupResponsiveClasses`: pushes each token onto the list of its property
   * (an insertion-ordered association list standing for `propertyGroups`),
   * then sorts each list by breakpoint weight, in key order.
   */
  method GroupResponsive(classes: seq<string>) returns (result: seq<seq<string>>)
    requires forall x | x in classes :: OrdinaryKey(Property(x))
    ensures result == Clusters(classes)
  {
    var keys, groups := CollectBy(classes, Property);
    result := SortEach(groups);
  }

  /**
   * The first loop of `groupResponsiveClasses`: builds `propertyGroups`, here
   * its keys in insertion order and the list under each key, for the key
   * function `key` (`getClassProperty` in the source).
   */
  method CollectBy<K(==,!new)>(classes: seq<string>, key: string -> K) returns (keys: seq<K>, groups: seq<seq<string>>)
    ensures keys == Keys(classes, key)
    ensures |groups| == |keys|
    ensures forall k | 0 <= k < |keys| :: groups[k] == Bucket(classes, key, keys[k])
  {
    keys := [];
    groups := [];
    for i := 0 to |classes|
      invariant keys == Keys(classes[..i], key)
      invariant |groups| == |keys|
      invariant forall k | 0 <= k < |keys| :: groups[k] == Bucket(classes[..i], key, keys[k])
    {
      ghost var seen := classes[..i];
      PrefixSnoc(classes, i);
      var className := classes[i];
      BucketSnoc(seen, key, className);
      var property := key(className);
      var k := IndexOf(keys, property);
      if k < 0 {
        keys := keys + [property];
        groups := groups + [[]];
        k := |keys| - 1;
      }
      assert forall j | 0 <= j < |keys| :: groups[j] == Bucket(seen, key, keys[j]);
      groups := groups[k := groups[k] + [className]];
      forall j | 0 <= j < |keys|
        ensures groups[j] == Bucket(seen + [className], key, keys[j])
      {
        if j != k {
          assert keys[j] != property;
        }
      }
    }
    assert classes[..|classes|] == classes;
  }

  /** The second loop of `groupResponsiveClasses`: sorts each group by weight, in order. */
  method SortEach(groups: seq<seq<string>>) returns (result: seq<seq<string>>)
    ensures |result| == |groups|
    ensures forall j | 0 <= j < |groups| :: result[j] == SortByWeight(groups[j])
  {
    result := [];
    for k := 0 to |groups|
      invariant |result| == k
      invariant forall j | 0 <= j < k :: result[j] == SortByWeight(groups[j])
    {
      result := result + [SortByWeight(groups[k])];
    }
  }
}
