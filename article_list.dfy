/** The article list's tag bar: the sorted set of all tags and the list
    filtered by the active tag. */
module ArticleList {
  import opened Wrappers
  import opened Seqs
  import opened Types

  // ---------------------------------------------------------------------
  // The default order of `Array.prototype.sort` on strings

  /** `a` sorts strictly before `b`: lexicographic by character, a proper
      prefix first. */
  predicate LexLess(a: string, b: string) {
    if a == [] then b != []
    else if b == [] then false
    else a[0] < b[0] || (a[0] == b[0] && LexLess(a[1..], b[1..]))
  }

  lemma {:induction false} LexLessIrreflexive(a: string)
    ensures !LexLess(a, a)
  {
    if a != [] {
      LexLessIrreflexive(a[1..]);
    }
  }

  lemma {:induction false} LexLessTransitive(a: string, b: string, c: string)
    requires LexLess(a, b) && LexLess(b, c)
    ensures LexLess(a, c)
  {
    if a != [] && b != [] && c != [] && a[0] == b[0] == c[0] {
      LexLessTransitive(a[1..], b[1..], c[1..]);
    }
  }

  lemma {:induction false} LexLessTotal(a: string, b: string)
    requires a != b
    ensures LexLess(a, b) || LexLess(b, a)
  {
    if a != [] && b != [] && a[0] == b[0] {
      assert a == [a[0]] + a[1..] && b == [b[0]] + b[1..];
      LexLessTotal(a[1..], b[1..]);
    }
  }

  predicate LexLessEq(a: string, b: string) {
    a == b || LexLess(a, b)
  }

  predicate Sorted(xs: seq<string>) {
    forall i, j :: 0 <= i < j < |xs| ==> LexLessEq(xs[i], xs[j])
  }

  predicate StrictlySorted(xs: seq<string>) {
    forall i, j :: 0 <= i < j < |xs| ==> LexLess(xs[i], xs[j])
  }

  predicate Distinct(xs: seq<string>) {
    forall i, j :: 0 <= i < j < |xs| ==> xs[i] != xs[j]
  }

  /** `x` placed before the first element it sorts strictly before. */
  function Insert(x: string, xs: seq<string>): (r: seq<string>)
    requires Sorted(xs)
    ensures multiset(r) == multiset(xs) + multiset{x}
    ensures Sorted(r)
  {
    if xs == [] then [x]
    else if LexLess(x, xs[0]) then
      InsertFrontSorted(x, xs);
      [x] + xs
    else
      var rest := Insert(x, xs[1..]);
      InsertBehindSorted(x, xs, rest);
      assert xs == [xs[0]] + xs[1..];
      [xs[0]] + rest
  }

  lemma InsertFrontSorted(x: string, xs: seq<string>)
    requires Sorted(xs) && xs != [] && LexLess(x, xs[0])
    ensures Sorted([x] + xs)
  {
    forall j | 0 < j < |xs| + 1
      ensures LexLessEq(x, ([x] + xs)[j])
    {
      if j > 1 && xs[0] != xs[j - 1] {
        LexLessTransitive(x, xs[0], xs[j - 1]);
      }
    }
  }

  lemma InsertBehindSorted(x: string, xs: seq<string>, rest: seq<string>)
    requires Sorted(xs) && xs != [] && !LexLess(x, xs[0])
    requires Sorted(rest) && multiset(rest) == multiset(xs[1..]) + multiset{x}
    ensures Sorted([xs[0]] + rest)
  {
    if x != xs[0] {
      LexLessTotal(x, xs[0]);
    }
    forall j | 0 <= j < |rest|
      ensures LexLessEq(xs[0], rest[j])
    {
      assert rest[j] in multiset(rest);
      if rest[j] != x {
        assert rest[j] in multiset(xs[1..]);
        var k :| 0 <= k < |xs[1..]| && xs[1..][k] == rest[j];
        assert xs[k + 1] == rest[j];
      }
    }
  }

  /** `Array.prototype.sort()` with its default comparison: the same strings,
      as often as before, in ascending order. */
  function Sort(xs: seq<string>): (r: seq<string>)
    ensures multiset(r) == multiset(xs)
    ensures Sorted(r)
  {
    if xs == [] then []
    else
      assert xs == [xs[0]] + xs[1..];
      Insert(xs[0], Sort(xs[1..]))
  }

  lemma {:induction false} DistinctCounts(xs: seq<string>)
    requires Distinct(xs)
    ensures forall x :: multiset(xs)[x] <= 1
  {
    if xs != [] {
      DistinctCounts(xs[1..]);
      assert xs == [xs[0]] + xs[1..];
      assert xs[0] !in xs[1..];
    }
  }

  lemma RepeatedCount(r: seq<string>, i: nat, j: nat)
    requires i < j < |r| && r[i] == r[j]
    ensures multiset(r)[r[i]] >= 2
  {
    assert r == r[..j] + r[j..];
    assert r[i] in multiset(r[..j]);
    assert r[j..] == [r[j]] + r[j + 1..];
  }

  /** A sorted arrangement of distinct strings is strictly ascending. */
  lemma SortedDistinctStrict(xs: seq<string>, r: seq<string>)
    requires Distinct(xs) && Sorted(r) && multiset(r) == multiset(xs)
    ensures StrictlySorted(r)
  {
    DistinctCounts(xs);
    forall i, j | 0 <= i < j < |r|
      ensures LexLess(r[i], r[j])
    {
      if r[i] == r[j] {
        RepeatedCount(r, i, j);
        assert false;
      }
    }
  }

  // ---------------------------------------------------------------------
  // allTags

  /** Some article carries tag `t`. */
  predicate HasTag(articles: seq<Article>, t: string) {
    exists i :: 0 <= i < |articles| && t in articles[i].tags
  }

  /** `allTags`: every tag of every article is collected into a set in the
      nested loops, then the set's elements are sorted. The result holds
      each tag once, nothing else, in ascending order. */
  method AllTags(articles: seq<Article>) returns (tags: seq<string>)
    ensures forall t :: t in tags <==> HasTag(articles, t)
    ensures StrictlySorted(tags)
  {
    var seen: seq<string> := [];
    var i := 0;
    while i < |articles|
      invariant 0 <= i <= |articles|
      invariant Distinct(seen)
      invariant forall t :: t in seen <==> HasTag(articles[..i], t)
    {
      var j := 0;
      while j < |articles[i].tags|
        invariant 0 <= j <= |articles[i].tags|
        invariant Distinct(seen)
        invariant forall t :: t in seen <==> HasTag(articles[..i], t) || t in articles[i].tags[..j]
      {
        var tag := articles[i].tags[j];
        if tag !in seen {
          seen := seen + [tag];
        }
        assert articles[i].tags[..j + 1] == articles[i].tags[..j] + [tag];
        j := j + 1;
      }
      assert articles[i].tags[..j] == articles[i].tags;
      forall t
        ensures HasTag(articles[..i + 1], t) <==> HasTag(articles[..i], t) || t in articles[i].tags
      {
        if HasTag(articles[..i + 1], t) {
          var k :| 0 <= k < i + 1 && t in articles[..i + 1][k].tags;
          if k < i {
            assert articles[..i][k] == articles[..i + 1][k];
          }
        }
        if HasTag(articles[..i], t) {
          var k :| 0 <= k < i && t in articles[..i][k].tags;
          assert articles[..i + 1][k] == articles[..i][k];
        }
        if t in articles[i].tags {
          assert articles[..i + 1][i] == articles[i];
        }
      }
      i := i + 1;
    }
    assert articles[..i] == articles;
    tags := Sort(seen);
    SortedDistinctStrict(seen, tags);
    forall t
      ensures t in tags <==> t in seen
    {
      assert t in tags <==> t in multiset(tags);
      assert t in seen <==> t in multiset(seen);
    }
  }

  // ---------------------------------------------------------------------
  // filteredArticles

  /** `filteredArticles`: every article while no tag (or the empty tag) is
      active, otherwise the articles whose tags include the active one. */
  function FilterByTag(articles: seq<Article>, activeTag: Option<string>): (r: seq<Article>)
    ensures activeTag.None? || activeTag.value == "" ==> r == articles
    ensures activeTag.Some? && activeTag.value != "" ==>
      && (forall i :: 0 <= i < |r| ==> r[i] in articles && activeTag.value in r[i].tags)
      && (forall i :: 0 <= i < |articles| && activeTag.value in articles[i].tags ==> articles[i] in r)
      && (forall a :: multiset(r)[a] == if activeTag.value in a.tags then multiset(articles)[a] else 0)
  {
    if activeTag.None? || activeTag.value == "" then articles
    else
      var p := (a: Article) => activeTag.value in a.tags;
      assert forall a :: multiset(Filter(articles, p))[a] == if activeTag.value in a.tags then multiset(articles)[a] else 0 by {
        forall a: Article
          ensures multiset(Filter(articles, p))[a] == if activeTag.value in a.tags then multiset(articles)[a] else 0
        {
          FilterCount(articles, p, a);
        }
      }
      Filter(articles, p)
  }

  /** The filtered list keeps the input's order. */
  lemma FilterByTagIsSubsequence(articles: seq<Article>, activeTag: Option<string>)
    ensures IsSubsequence(FilterByTag(articles, activeTag), articles)
  {
    if activeTag.None? || activeTag.value == "" {
      SubsequenceOfSelf(articles);
    } else {
      FilterIsSubsequence(articles, (a: Article) => activeTag.value in a.tags);
    }
  }

  lemma {:induction false} SubsequenceOfSelf<T>(xs: seq<T>)
    ensures IsSubsequence(xs, xs)
  {
    if xs != [] {
      SubsequenceOfSelf(xs[1..]);
    }
  }

  /** Every tag button shown leads to at least one article. */
  lemma TagOfSomeArticleSelectsSome(articles: seq<Article>, t: string)
    requires HasTag(articles, t)
    ensures |FilterByTag(articles, Some(t))| > 0
  {
    var i :| 0 <= i < |articles| && t in articles[i].tags;
    if t != "" {
      assert articles[i] in FilterByTag(articles, Some(t));
    }
  }

  /** The tag bar's one piece of state. */
  class TagFilter {
    var activeTag: Option<string>

    constructor ()
      ensures activeTag == None
    {
      activeTag := None;
    }

    /** A tag button's `onClick`; the "All" button passes no tag. */
    method SetActiveTag(tag: Option<string>)
      modifies this`activeTag
      ensures activeTag == tag
    {
      activeTag := tag;
    }
  }
}
