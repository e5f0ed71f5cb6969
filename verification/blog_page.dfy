/**
 * The blog listing page (src/pages/Blog.jsx): the catalogue filtered by the
 * selected tag, and for each post a card with its reading time, its view count
 * and at most three of its tags. The selected tag starts as `'all'` and no
 * handler ever changes it.
 */
module BlogPage {
  import opened JsBuiltins
  import opened LocalStorage
  import opened BlogUtils

  /** The initial (and only) value of `selectedTag`. */
  const ShowAll: string := "all"

  /** Words per minute in the reading-time estimate. */
  const WordsPerMinute: nat := 200

  /** At most this many tags are shown on a card. */
  const MaxCardTags: int := 3

  /** `filteredPosts`: every post for `'all'`, otherwise the posts carrying the tag, in order. */
  function FilteredPosts(posts: seq<Post>, selectedTag: string): (shown: seq<Post>)
    ensures |shown| <= |posts|
    ensures selectedTag == ShowAll ==> shown == posts
    ensures selectedTag != ShowAll ==> forall p :: p in shown <==> p in posts && selectedTag in p.frontmatter.tags
  {
    if selectedTag == ShowAll then posts else WithTag(posts, selectedTag)
  }

  /** `Math.ceil(content.split(' ').length / 200)`: minutes for the space-separated pieces. */
  function ReadingMinutes(content: string): (minutes: nat)
    ensures minutes >= 1
    ensures (minutes - 1) * WordsPerMinute < |SplitOnSpace(content)| <= minutes * WordsPerMinute
  {
    CeilDiv(|SplitOnSpace(content)|, WordsPerMinute)
  }

  /** Fewer than 200 spaces read in one minute; the estimate counts spaces, not words. */
  lemma ShortReadIsOneMinute(content: string)
    requires SpaceCount(content) < WordsPerMinute
    ensures ReadingMinutes(content) == 1
  {
    SplitCount(content);
  }

  /** `getBlogViewCount(post.slug) + (post.views || 0)`: the stored visits on top of the base count. */
  function ViewsShown(items: map<string, Value>, post: Post): (n: int)
    ensures ViewKey(post.slug) !in items ==> n == post.views
  {
    CountIn(items, ViewKey(post.slug)) + post.views
  }

  /** A visit recorded for one post adds one to that post's count and to no other. */
  lemma ViewsShownAfterVisit(items: map<string, Value>, visited: Post, other: Post)
    ensures var after := items[ViewKey(visited.slug) := Count(CountIn(items, ViewKey(visited.slug)) + 1)];
      && ViewsShown(after, visited) == ViewsShown(items, visited) + 1
      && (other.slug != visited.slug ==> ViewsShown(after, other) == ViewsShown(items, other))
  {
    if other.slug != visited.slug && ViewKey(other.slug) == ViewKey(visited.slug) {
      ViewKeyInjective(other.slug, visited.slug);
    }
  }

  /** `post.frontmatter.tags.slice(0, 3)`: the first three tags, in order. */
  function VisibleTags(tags: seq<string>): (shown: seq<string>)
    ensures |shown| == if |tags| < MaxCardTags then |tags| else MaxCardTags
    ensures shown == tags[..|shown|]
  {
    SliceTo(tags, MaxCardTags)
  }

  /** What one card of the grid shows about a post. */
  datatype Card = Card(post: Post, minutes: nat, views: int, tags: seq<string>)

  /** The two outcomes of rendering the listing. */
  datatype Listing = NoPostsFound | Grid(cards: seq<Card>)

  function CardOf(items: map<string, Value>, post: Post): (card: Card)
    ensures card.post == post && card.minutes >= 1
    ensures |card.tags| <= |post.frontmatter.tags| && |card.tags| <= MaxCardTags
    ensures card.tags == post.frontmatter.tags[..|card.tags|]
  {
    Card(post, ReadingMinutes(post.content), ViewsShown(items, post), VisibleTags(post.frontmatter.tags))
  }

  /** The posts section: the "No posts found" message for an empty list, else one card per post. */
  function Render(items: map<string, Value>, posts: seq<Post>, selectedTag: string): (page: Listing)
    ensures page.NoPostsFound? <==> FilteredPosts(posts, selectedTag) == []
    ensures page.Grid? ==> |page.cards| == |FilteredPosts(posts, selectedTag)|
    ensures page.Grid? ==> forall i :: 0 <= i < |page.cards| ==> page.cards[i].post == FilteredPosts(posts, selectedTag)[i]
  {
    var shown := FilteredPosts(posts, selectedTag);
    if shown == [] then NoPostsFound
    else Grid(seq(|shown|, i requires 0 <= i < |shown| => CardOf(items, shown[i])))
  }

  /** The page as it is: the whole catalogue newest first, "No posts found" only when there are no samples. */
  lemma PageListsCatalogue(items: map<string, Value>, samples: seq<Sample>, slugOf: string -> string)
    ensures var page := Render(items, AllBlogPosts(samples, slugOf), ShowAll);
      && (page.NoPostsFound? <==> samples == [])
      && (page.Grid? ==> |page.cards| == |samples| && NewestFirst(seq(|page.cards|, i requires 0 <= i < |page.cards| => page.cards[i].post)))
  {
    var posts := AllBlogPosts(samples, slugOf);
    var page := Render(items, posts, ShowAll);
    if page.Grid? {
      assert seq(|page.cards|, i requires 0 <= i < |page.cards| => page.cards[i].post) == posts;
    }
  }
}
