/**
 * The blog catalogue (src/utils/blogUtils.js): three built-in posts turned into
 * entries with a slug, sorted newest first, looked up by slug, filtered by tag,
 * their tags collected into one sorted list; and the per-post view counters kept
 * in storage under `blog_views_<slug>`.
 */
module BlogUtils {
  import opened Wrappers
  import opened LocalStorage

  /** A calendar day, the meaning of an ISO `YYYY-MM-DD` string. */
  datatype Date = Date(year: int, month: int, day: int)

  predicate ValidDate(d: Date) {
    1 <= d.month <= 12 && 1 <= d.day <= 31
  }

  /** The day before another, in calendar order. */
  predicate Earlier(a: Date, b: Date) {
    || a.year < b.year
    || (a.year == b.year && a.month < b.month)
    || (a.year == b.year && a.month == b.month && a.day < b.day)
  }

  /** The number `new Date(s)` compares by, up to a monotone change of scale. */
  function DayNumber(d: Date): int {
    d.year * 512 + d.month * 32 + d.day
  }

  /** For valid days, comparing day numbers is comparing calendar positions. */
  lemma DayNumberOrder(a: Date, b: Date)
    requires ValidDate(a) && ValidDate(b)
    ensures DayNumber(a) < DayNumber(b) <==> Earlier(a, b)
    ensures DayNumber(a) == DayNumber(b) <==> a == b
  {
  }

  /** One entry of `samplePosts`; the whole article text is `content`. */
  datatype Sample = Sample(
    title: string,
    date: Date,
    author: string,
    excerpt: string,
    thumbnail: string,
    tags: seq<string>,
    views: Option<int>,
    content: string)

  datatype Frontmatter = Frontmatter(
    title: string,
    date: Date,
    author: string,
    excerpt: string,
    thumbnail: string,
    tags: seq<string>,
    views: int)

  /** One entry of `getAllBlogPosts()`. */
  datatype Post = Post(
    slug: string,
    frontmatter: Frontmatter,
    content: string,
    excerpt: string,
    date: Date,
    views: int)

  /** `post.views || 0`: a missing (or zero) count reads as 0. */
  function ViewsOrZero(views: Option<int>): (n: int)
    ensures views.None? ==> n == 0
    ensures views.Some? ==> n == views.value
  {
    match views
    case None => 0
    case Some(v) => v
  }

  /**
   * The `map` callback of `getAllBlogPosts`: `slugOf` stands for `generateSlug`,
   * which is defined outside the catalogue.
   */
  function ToPost(s: Sample, slugOf: string -> string): (p: Post)
    ensures p.slug == slugOf(s.title) && p.date == s.date && p.frontmatter.date == s.date
    ensures p.views == p.frontmatter.views == ViewsOrZero(s.views)
    ensures p.frontmatter.tags == s.tags && p.content == s.content
    ensures p.excerpt == p.frontmatter.excerpt == s.excerpt && p.frontmatter.title == s.title
  {
    var views := ViewsOrZero(s.views);
    Post(slugOf(s.title),
      Frontmatter(s.title, s.date, s.author, s.excerpt, s.thumbnail, s.tags, views),
      s.content, s.excerpt, s.date, views)
  }

  /** Posts in the order the comparator `(a, b) => b.date - a.date` asks for. */
  predicate NewestFirst(posts: seq<Post>) {
    forall i, j :: 0 <= i < j < |posts| ==> DayNumber(posts[i].date) >= DayNumber(posts[j].date)
  }

  /** Puts `p` before the first post that is not newer than it, so equal dates keep their order. */
  function InsertByDate(p: Post, sorted: seq<Post>): (r: seq<Post>)
    ensures |r| == |sorted| + 1
  {
    if sorted == [] || DayNumber(sorted[0].date) <= DayNumber(p.date) then [p] + sorted
    else [sorted[0]] + InsertByDate(p, sorted[1..])
  }

  /** Inserting adds exactly the one post. */
  lemma {:induction false} InsertByDateAdds(p: Post, sorted: seq<Post>)
    ensures multiset(InsertByDate(p, sorted)) == multiset(sorted) + multiset{p}
  {
    if !(sorted == [] || DayNumber(sorted[0].date) <= DayNumber(p.date)) {
      InsertByDateAdds(p, sorted[1..]);
      assert sorted == [sorted[0]] + sorted[1..];
    }
  }

  /** Inserting into a list in date order keeps it in date order. */
  lemma {:induction false} InsertByDateKeepsOrder(p: Post, sorted: seq<Post>)
    requires NewestFirst(sorted)
    ensures NewestFirst(InsertByDate(p, sorted))
  {
    if !(sorted == [] || DayNumber(sorted[0].date) <= DayNumber(p.date)) {
      var rest := InsertByDate(p, sorted[1..]);
      InsertByDateKeepsOrder(p, sorted[1..]);
      InsertByDateBounded(p, sorted[1..], DayNumber(sorted[0].date));
      var r := [sorted[0]] + rest;
      assert forall i :: 1 <= i < |r| ==> r[i] == rest[i - 1];
    }
  }

  /** Inserting a post no newer than some day into posts no newer than it gives posts no newer than it. */
  lemma {:induction false} InsertByDateBounded(p: Post, sorted: seq<Post>, bound: int)
    requires DayNumber(p.date) <= bound
    requires forall k :: 0 <= k < |sorted| ==> DayNumber(sorted[k].date) <= bound
    ensures forall k :: 0 <= k < |InsertByDate(p, sorted)| ==> DayNumber(InsertByDate(p, sorted)[k].date) <= bound
  {
    if !(sorted == [] || DayNumber(sorted[0].date) <= DayNumber(p.date)) {
      InsertByDateBounded(p, sorted[1..], bound);
    }
  }

  /** `posts.sort((a, b) => b.date - a.date)`: an insertion sort, which is stable. */
  function SortNewestFirst(posts: seq<Post>): (r: seq<Post>)
    ensures |r| == |posts|
  {
    if posts == [] then [] else InsertByDate(posts[0], SortNewestFirst(posts[1..]))
  }

  /** The sort returns the same posts, newest first. */
  lemma {:induction false} SortNewestFirstSorts(posts: seq<Post>)
    ensures NewestFirst(SortNewestFirst(posts))
    ensures multiset(SortNewestFirst(posts)) == multiset(posts)
  {
    if posts != [] {
      SortNewestFirstSorts(posts[1..]);
      InsertByDateKeepsOrder(posts[0], SortNewestFirst(posts[1..]));
      InsertByDateAdds(posts[0], SortNewestFirst(posts[1..]));
      assert posts == [posts[0]] + posts[1..];
    }
  }

  /** The `map` step of `getAllBlogPosts`. */
  function ToPosts(samples: seq<Sample>, slugOf: string -> string): (posts: seq<Post>)
    ensures |posts| == |samples|
    ensures forall i :: 0 <= i < |samples| ==> posts[i] == ToPost(samples[i], slugOf)
  {
    seq(|samples|, i requires 0 <= i < |samples| => ToPost(samples[i], slugOf))
  }

  /** `getAllBlogPosts()`: one entry per sample, newest first. */
  function AllBlogPosts(samples: seq<Sample>, slugOf: string -> string): (posts: seq<Post>)
    ensures NewestFirst(posts)
    ensures multiset(posts) == multiset(ToPosts(samples, slugOf)) && |posts| == |samples|
  {
    SortNewestFirstSorts(ToPosts(samples, slugOf));
    SortNewestFirst(ToPosts(samples, slugOf))
  }

  /**
   * The prose of a built-in post: its one-line excerpt and its Markdown article.
   * Both are long literals in the catalogue and are taken as inputs here.
   */
  datatype Article = Article(excerpt: string, content: string)

  /**
   * The `k`-th (from 0) entry of `samplePosts` around its article.
   */
  function SamplePost(k: nat, article: Article): (s: Sample)
    ensures k == 0 ==> s.date == Date(2024, 12, 15) && s.views == Some(1250)
    ensures k == 1 ==> s.date == Date(2024, 12, 10) && s.views == Some(2100)
    ensures k >= 2 ==> s.date == Date(2024, 12, 20) && s.views == Some(0)
    ensures s.excerpt == article.excerpt && s.content == article.content && ValidDate(s.date)
  {
    if k == 0 then
      Sample("My First Startup: Lessons Learned from Building a Tech Company", Date(2024, 12, 15),
        "Your Name", article.excerpt, "/blog/startup-lessons.jpg",
        ["Startup", "Entrepreneurship", "Lessons Learned"], Some(1250), article.content)
    else if k == 1 then
      Sample("How I Raised $50K for My Startup: A Complete Guide", Date(2024, 12, 10),
        "Your Name", article.excerpt, "/blog/funding-guide.jpg",
        ["Funding", "Startup", "Investors", "Pitch Deck"], Some(2100), article.content)
    else
      Sample("Your Article Title Here", Date(2024, 12, 20),
        "Your Name", article.excerpt, "/blog/your-image.jpg",
        ["Startup", "Your Tag", "Another Tag"], Some(0), article.content)
  }

  /** `samplePosts`, in source order, given the three articles. */
  function SamplePosts(first: Article, second: Article, third: Article): (samples: seq<Sample>)
    ensures |samples| == 3
    ensures forall k :: 0 <= k < 3 ==> samples[k] == SamplePost(k, [first, second, third][k])
  {
    seq(3, k requires 0 <= k < 3 => SamplePost(k, [first, second, third][k]))
  }

  /** The days of the three samples, in source order. */
  lemma SampleDates(first: Article, second: Article, third: Article)
    ensures var samples := SamplePosts(first, second, third);
      && samples[0].date == Date(2024, 12, 15)
      && samples[1].date == Date(2024, 12, 10)
      && samples[2].date == Date(2024, 12, 20)
  {
  }

  /** Three posts on three different days come out in the order of their days, newest first. */
  lemma ThreeByDate(samples: seq<Sample>, slugOf: string -> string)
    requires |samples| == 3
    requires DayNumber(samples[2].date) > DayNumber(samples[0].date) > DayNumber(samples[1].date)
    ensures AllBlogPosts(samples, slugOf)
      == [ToPost(samples[2], slugOf), ToPost(samples[0], slugOf), ToPost(samples[1], slugOf)]
  {
    var m := ToPosts(samples, slugOf);
    assert m[1..][1..][1..] == [];
    assert SortNewestFirst(m[1..][1..]) == [m[2]];
    assert SortNewestFirst(m[1..]) == InsertByDate(m[1], [m[2]]) == [m[2], m[1]];
    assert SortNewestFirst(m) == InsertByDate(m[0], [m[2], m[1]]) == [m[2], m[0], m[1]];
  }

  /**
   * The catalogue lists the third sample (20 December) first, then the first
   * (15 December), then the second (10 December), whatever the slugs are.
   */
  lemma SampleCatalogueOrder(first: Article, second: Article, third: Article, slugOf: string -> string)
    ensures var samples := SamplePosts(first, second, third);
      AllBlogPosts(samples, slugOf)
        == [ToPost(samples[2], slugOf), ToPost(samples[0], slugOf), ToPost(samples[1], slugOf)]
  {
    var samples := SamplePosts(first, second, third);
    var dec20, dec15, dec10 := Date(2024, 12, 20), Date(2024, 12, 15), Date(2024, 12, 10);
    assert DayNumber(dec20) > DayNumber(dec15) > DayNumber(dec10) by {
      DayNumberOrder(dec15, dec20);
      DayNumberOrder(dec10, dec15);
    }
    SampleDates(first, second, third);
    ThreeByDate(samples, slugOf);
  }

  /** `posts.find(post => post.slug === slug)` */
  function FindBySlug(posts: seq<Post>, slug: string): (r: Option<Post>)
    ensures r.None? <==> forall p :: p in posts ==> p.slug != slug
    ensures r.Some? ==> r.value in posts && r.value.slug == slug
  {
    if posts == [] then None
    else if posts[0].slug == slug then Some(posts[0])
    else
      assert forall p :: p in posts <==> p == posts[0] || p in posts[1..];
      FindBySlug(posts[1..], slug)
  }

  /** What `find` returns is the FIRST post with that slug. */
  lemma {:induction false} FindBySlugIsFirst(posts: seq<Post>, slug: string)
    requires FindBySlug(posts, slug).Some?
    ensures exists i :: && 0 <= i < |posts| && posts[i] == FindBySlug(posts, slug).value
                        && forall j :: 0 <= j < i ==> posts[j].slug != slug
  {
    if posts[0].slug != slug {
      FindBySlugIsFirst(posts[1..], slug);
      var i :| && 0 <= i < |posts[1..]| && posts[1..][i] == FindBySlug(posts[1..], slug).value
               && forall j :: 0 <= j < i ==> posts[1..][j].slug != slug;
      assert posts[i + 1] == FindBySlug(posts, slug).value;
    }
  }

  /** `getBlogPostBySlug(slug)` */
  function BlogPostBySlug(samples: seq<Sample>, slugOf: string -> string, slug: string): (r: Option<Post>)
    ensures r.Some? ==> r.value.slug == slug && r.value in AllBlogPosts(samples, slugOf)
  {
    FindBySlug(AllBlogPosts(samples, slugOf), slug)
  }

  /** A slug resolves exactly when some sample's title produces it. */
  lemma BlogPostBySlugFound(samples: seq<Sample>, slugOf: string -> string, slug: string)
    ensures BlogPostBySlug(samples, slugOf, slug).Some? <==> exists s :: s in samples && slugOf(s.title) == slug
  {
    var posts := AllBlogPosts(samples, slugOf);
    var mapped := ToPosts(samples, slugOf);
    if BlogPostBySlug(samples, slugOf, slug).Some? {
      var p := BlogPostBySlug(samples, slugOf, slug).value;
      assert p in multiset(mapped) by {
        assert p in multiset(posts);
      }
      var k :| 0 <= k < |samples| && mapped[k] == p;
      assert samples[k] in samples;
    } else {
      forall s | s in samples ensures slugOf(s.title) != slug {
        var k :| 0 <= k < |samples| && samples[k] == s;
        assert mapped[k] in multiset(posts);
      }
    }
  }

  /** The `filter` of `getBlogPostsByTag`: the posts whose tags include `tag`, in their order. */
  function WithTag(posts: seq<Post>, tag: string): (r: seq<Post>)
    ensures |r| <= |posts|
    ensures forall p :: p in r <==> p in posts && tag in p.frontmatter.tags
  {
    if posts == [] then []
    else
      var rest := WithTag(posts[1..], tag);
      assert forall p :: p in posts <==> p == posts[0] || p in posts[1..];
      if tag in posts[0].frontmatter.tags then [posts[0]] + rest else rest
  }

  /** Filtering keeps the relative order: the result is a subsequence of the input. */
  lemma {:induction false} WithTagIsSubsequence(posts: seq<Post>, tag: string)
    ensures IsSubsequence(WithTag(posts, tag), posts)
  {
    if posts != [] {
      WithTagIsSubsequence(posts[1..], tag);
      SubsequenceOfTail(WithTag(posts[1..], tag), posts);
    }
  }

  /** `a` is `b` with some elements left out. */
  predicate IsSubsequence<T(==)>(a: seq<T>, b: seq<T>)
    decreases |b|
  {
    if a == [] then true
    else if b == [] then false
    else if a[0] == b[0] then IsSubsequence(a[1..], b[1..])
    else IsSubsequence(a, b[1..])
  }

  /** A subsequence of the tail, with or without the head put back, is a subsequence of the whole. */
  lemma SubsequenceOfTail<T>(a: seq<T>, b: seq<T>)
    requires b != [] && IsSubsequence(a, b[1..])
    ensures IsSubsequence(a, b) && IsSubsequence([b[0]] + a, b)
  {
    assert ([b[0]] + a)[1..] == a;
    if a != [] && a[0] == b[0] {
      SubsequenceDropFirst(a, b[1..]);
    }
  }

  /** Leaving out the first element of a subsequence keeps it a subsequence. */
  lemma {:induction false} SubsequenceDropFirst<T>(a: seq<T>, b: seq<T>)
    requires a != [] && IsSubsequence(a, b)
    ensures IsSubsequence(a[1..], b)
    decreases |b|
  {
    if b != [] {
      if a[0] == b[0] {
        if a[1..] != [] {
          SubsequenceDropFirst(a[1..], b[1..]);
        }
      } else {
        SubsequenceDropFirst(a, b[1..]);
        if a[1..] != [] && a[1..][0] == b[0] {
          assert IsSubsequence(a[1..][1..], b[1..]) by {
            SubsequenceDropFirst(a[1..], b[1..]);
          }
        }
      }
    }
  }

  /** A subsequence of a list in date order is itself in date order. */
  lemma {:induction false} SubsequenceKeepsOrder(a: seq<Post>, b: seq<Post>)
    requires IsSubsequence(a, b) && NewestFirst(b)
    ensures NewestFirst(a)
    ensures forall p :: p in a ==> p in b
    decreases |b|
  {
    if a != [] && b != [] {
      if a[0] == b[0] {
        SubsequenceKeepsOrder(a[1..], b[1..]);
        assert forall p :: p in a ==> p == a[0] || p in a[1..];
        forall j | 0 < j < |a| ensures DayNumber(a[0].date) >= DayNumber(a[j].date) {
          assert a[j] in a[1..];
        }
      } else {
        SubsequenceKeepsOrder(a, b[1..]);
      }
    }
  }

  /** `getBlogPostsByTag(tag)`: exactly the posts carrying the tag, still newest first. */
  function BlogPostsByTag(samples: seq<Sample>, slugOf: string -> string, tag: string): (r: seq<Post>)
    ensures NewestFirst(r)
    ensures forall p :: p in r <==> p in AllBlogPosts(samples, slugOf) && tag in p.frontmatter.tags
  {
    var posts := AllBlogPosts(samples, slugOf);
    WithTagIsSubsequence(posts, tag);
    SubsequenceKeepsOrder(WithTag(posts, tag), posts);
    WithTag(posts, tag)
  }

  /** `a < b` on strings: lexicographic by character code. */
  predicate StrLess(a: string, b: string) {
    if a == [] then b != []
    else if b == [] then false
    else if a[0] != b[0] then a[0] < b[0]
    else StrLess(a[1..], b[1..])
  }

  lemma {:induction false} StrLessIrreflexive(a: string)
    ensures !StrLess(a, a)
  {
    if a != [] {
      StrLessIrreflexive(a[1..]);
    }
  }

  lemma {:induction false} StrLessTransitive(a: string, b: string, c: string)
    requires StrLess(a, b) && StrLess(b, c)
    ensures StrLess(a, c)
  {
    if a != [] && b != [] && c != [] && a[0] == b[0] && b[0] == c[0] {
      StrLessTransitive(a[1..], b[1..], c[1..]);
    }
  }

  lemma {:induction false} StrLessTotal(a: string, b: string)
    requires a != b
    ensures StrLess(a, b) || StrLess(b, a)
  {
    if a != [] && b != [] && a[0] == b[0] {
      assert a == [a[0]] + a[1..] && b == [b[0]] + b[1..];
      StrLessTotal(a[1..], b[1..]);
    }
  }

  /** Strictly ascending, hence free of repeats. */
  predicate Ascending(s: seq<string>) {
    forall i, j :: 0 <= i < j < |s| ==> StrLess(s[i], s[j])
  }

  predicate Distinct<T(==)>(s: seq<T>) {
    forall i, j :: 0 <= i < j < |s| ==> s[i] != s[j]
  }

  /** Puts a string into a list before the first entry it precedes. */
  function InsertString(t: string, sorted: seq<string>): (r: seq<string>)
    ensures multiset(r) == multiset(sorted) + multiset{t}
  {
    if sorted == [] || StrLess(t, sorted[0]) then [t] + sorted
    else
      assert sorted == [sorted[0]] + sorted[1..];
      [sorted[0]] + InsertString(t, sorted[1..])
  }

  /** Everything inserted above `low` into a list above `low` stays above `low`. */
  lemma {:induction false} InsertStringAbove(t: string, sorted: seq<string>, low: string)
    requires StrLess(low, t)
    requires forall k :: 0 <= k < |sorted| ==> StrLess(low, sorted[k])
    ensures forall k :: 0 <= k < |InsertString(t, sorted)| ==> StrLess(low, InsertString(t, sorted)[k])
  {
    if !(sorted == [] || StrLess(t, sorted[0])) {
      InsertStringAbove(t, sorted[1..], low);
    }
  }

  /** Inserting a new string into an ascending list keeps it ascending. */
  lemma {:induction false} InsertStringSorts(t: string, sorted: seq<string>)
    requires Ascending(sorted) && t !in sorted
    ensures Ascending(InsertString(t, sorted))
  {
    if sorted != [] && StrLess(t, sorted[0]) {
      forall j | 0 < j < |sorted| ensures StrLess(t, sorted[j]) {
        StrLessTransitive(t, sorted[0], sorted[j]);
      }
      var r := [t] + sorted;
      assert forall i :: 1 <= i < |r| ==> r[i] == sorted[i - 1];
    } else if sorted != [] {
      StrLessTotal(t, sorted[0]);
      var rest := InsertString(t, sorted[1..]);
      InsertStringSorts(t, sorted[1..]);
      InsertStringAbove(t, sorted[1..], sorted[0]);
      var r := [sorted[0]] + rest;
      assert forall i :: 1 <= i < |r| ==> r[i] == rest[i - 1];
    }
  }

  /** `Array.from(tags).sort()` for the distinct strings a `Set` holds. */
  function SortStrings(s: seq<string>): (r: seq<string>)
    requires Distinct(s)
    ensures Ascending(r)
    ensures multiset(r) == multiset(s)
  {
    if s == [] then []
    else
      assert s == [s[0]] + s[1..];
      var rest := SortStrings(s[1..]);
      assert s[0] !in multiset(rest);
      InsertStringSorts(s[0], rest);
      InsertString(s[0], rest)
  }

  /**
   * `getAllTags()`: every tag of every post, each once (a `Set` filled in a `forEach`),
   * then sorted.
   */
  method AllTags(posts: seq<Post>) returns (tags: seq<string>)
    ensures Ascending(tags)
    ensures forall t :: t in tags <==> exists p :: p in posts && t in p.frontmatter.tags
  {
    var seen: seq<string> := [];
    var i := 0;
    while i < |posts|
      invariant 0 <= i <= |posts|
      invariant Distinct(seen)
      invariant forall t :: t in seen <==> exists k :: 0 <= k < i && t in posts[k].frontmatter.tags
    {
      var postTags := posts[i].frontmatter.tags;
      var j := 0;
      while j < |postTags|
        invariant 0 <= j <= |postTags|
        invariant Distinct(seen)
        invariant forall t :: t in seen <==>
          (exists k :: 0 <= k < i && t in posts[k].frontmatter.tags) || t in postTags[..j]
      {
        if postTags[j] !in seen {
          seen := seen + [postTags[j]];
        }
        assert postTags[..j + 1] == postTags[..j] + [postTags[j]];
        j := j + 1;
      }
      assert postTags[..j] == postTags;
      i := i + 1;
    }
    tags := SortStrings(seen);
    forall t ensures t in tags <==> t in seen {
      assert t in tags <==> t in multiset(tags);
    }
  }

  /** The prefix of every per-post counter key. */
  const ViewKeyPrefix: string := "blog_views_"

  /** `` `blog_views_${slug}` `` */
  function ViewKey(slug: string): (key: string)
    ensures |key| == |ViewKeyPrefix| + |slug| && key[..|ViewKeyPrefix|] == ViewKeyPrefix
  {
    ViewKeyPrefix + slug
  }

  /** Different slugs count in different keys. */
  lemma ViewKeyInjective(a: string, b: string)
    requires ViewKey(a) == ViewKey(b)
    ensures a == b
  {
    assert a == ViewKey(a)[|ViewKeyPrefix|..];
    assert b == ViewKey(b)[|ViewKeyPrefix|..];
  }

  /** `getBlogViewCount(slug)`: reading changes nothing. */
  function BlogViewCount(store: Store, slug: string): (n: int)
    reads store
    ensures ViewKey(slug) !in store.items ==> n == 0
  {
    CountIn(store.items, ViewKey(slug))
  }

  /**
   * `trackBlogView(slug)`: read the counter (absent is 0), write it back one higher,
   * and return the new value; no other key changes.
   */
  method TrackBlogView(store: Store, slug: string) returns (n: int)
    modifies store
    ensures n == CountIn(old(store.items), ViewKey(slug)) + 1
    ensures store.items == old(store.items)[ViewKey(slug) := Count(n)]
    ensures BlogViewCount(store, slug) == n
    ensures forall other :: other != slug ==> BlogViewCount(store, other) == old(BlogViewCount(store, other))
  {
    var key := ViewKey(slug);
    var current := CountIn(store.items, key);
    store.SetItem(key, Count(current + 1));
    n := current + 1;
    forall other | other != slug
      ensures BlogViewCount(store, other) == old(BlogViewCount(store, other))
    {
      if ViewKey(other) == key {
        ViewKeyInjective(other, slug);
      }
    }
  }

  /** `incrementBlogView(slug)`: the same as `trackBlogView(slug)`. */
  method IncrementBlogView(store: Store, slug: string) returns (n: int)
    modifies store
    ensures n == CountIn(old(store.items), ViewKey(slug)) + 1
    ensures store.items == old(store.items)[ViewKey(slug) := Count(n)]
  {
    n := TrackBlogView(store, slug);
  }
}
