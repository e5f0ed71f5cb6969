/**
 * The single-post page (src/pages/BlogPost.jsx): the post is looked up by the
 * slug in the address; an unknown slug shows "Post not found", a known one shows
 * the article with its reading time and view count. The mount effect records a
 * visit only when the post was found; the page has already rendered the count
 * from before that visit. The effect runs again on every re-render.
 */
module BlogPostPage {
  import opened Wrappers
  import opened LocalStorage
  import opened BlogUtils
  import opened BlogPage

  datatype PostPage = PostNotFound | Showing(post: Post, minutes: nat, views: int)

  /** What the page renders for `slug` against the stored counters `items`. */
  function PageFor(items: map<string, Value>, samples: seq<Sample>, slugOf: string -> string, slug: string): (page: PostPage)
    ensures page.PostNotFound? <==> BlogPostBySlug(samples, slugOf, slug).None?
    ensures page.Showing? ==> page.post == BlogPostBySlug(samples, slugOf, slug).value && page.post.slug == slug
    ensures page.Showing? ==> page.minutes == ReadingMinutes(page.post.content) && page.views == ViewsShown(items, page.post)
  {
    match BlogPostBySlug(samples, slugOf, slug)
    case None => PostNotFound
    case Some(post) => Showing(post, ReadingMinutes(post.content), ViewsShown(items, post))
  }

  /** A slug that no sample title produces shows "Post not found". */
  lemma UnknownSlugNotFound(items: map<string, Value>, samples: seq<Sample>, slugOf: string -> string, slug: string)
    requires forall s :: s in samples ==> slugOf(s.title) != slug
    ensures PageFor(items, samples, slugOf, slug) == PostNotFound
  {
    BlogPostBySlugFound(samples, slugOf, slug);
  }

  /** Visiting a post again shows one view more than the visit before. */
  lemma RevisitShowsOneMore(items: map<string, Value>, samples: seq<Sample>, slugOf: string -> string, slug: string)
    requires PageFor(items, samples, slugOf, slug).Showing?
    ensures var after := items[ViewKey(slug) := Count(CountIn(items, ViewKey(slug)) + 1)];
      PageFor(after, samples, slugOf, slug).views == PageFor(items, samples, slugOf, slug).views + 1
  {
    var post := PageFor(items, samples, slugOf, slug).post;
    ViewsShownAfterVisit(items, post, post);
  }

  /** The storage after one render and the effect it runs: a found post with a non-empty slug counts one view. */
  function AfterRender(items: map<string, Value>, samples: seq<Sample>, slugOf: string -> string, slug: string): (after: map<string, Value>)
    ensures PageFor(items, samples, slugOf, slug).Showing? && slug != "" ==>
      CountIn(after, ViewKey(slug)) == CountIn(items, ViewKey(slug)) + 1
    ensures PageFor(items, samples, slugOf, slug).PostNotFound? || slug == "" ==> after == items
    ensures forall k :: k != ViewKey(slug) ==> (k in after <==> k in items)
    ensures forall k :: k != ViewKey(slug) && k in items ==> after[k] == items[k]
  {
    if BlogPostBySlug(samples, slugOf, slug).Some? && slug != ""
    then items[ViewKey(slug) := Count(CountIn(items, ViewKey(slug)) + 1)]
    else items
  }

  /** The storage after `n` renders of the same page. */
  function AfterRenders(items: map<string, Value>, samples: seq<Sample>, slugOf: string -> string, slug: string, n: nat): map<string, Value> {
    if n == 0 then items else AfterRender(AfterRenders(items, samples, slugOf, slug, n - 1), samples, slugOf, slug)
  }

  /**
   * `getBlogPostBySlug` builds a new object on every render and the effect depends
   * on it, so every render of a found post counts a view, not only the first.
   */
  lemma {:induction false} RendersCountEach(items: map<string, Value>, samples: seq<Sample>, slugOf: string -> string, slug: string, n: nat)
    requires BlogPostBySlug(samples, slugOf, slug).Some? && slug != ""
    ensures CountIn(AfterRenders(items, samples, slugOf, slug, n), ViewKey(slug)) == CountIn(items, ViewKey(slug)) + n
  {
    if n > 0 {
      RendersCountEach(items, samples, slugOf, slug, n - 1);
    }
  }

  /**
   * One render followed by the effect it runs, on the first mount and on every
   * re-render alike: the page shows the count from before the visit, and the
   * counter goes up only for a found post and a non-empty slug.
   */
  method Mount(store: Store, samples: seq<Sample>, slugOf: string -> string, slug: string) returns (page: PostPage)
    modifies store
    ensures page == PageFor(old(store.items), samples, slugOf, slug)
    ensures store.items == AfterRender(old(store.items), samples, slugOf, slug)
    ensures page.Showing? && slug != "" ==>
      store.items == old(store.items)[ViewKey(slug) := Count(CountIn(old(store.items), ViewKey(slug)) + 1)]
    ensures page.PostNotFound? || slug == "" ==> store.items == old(store.items)
  {
    page := PageFor(store.items, samples, slugOf, slug);
    var post := BlogPostBySlug(samples, slugOf, slug);
    if post.Some? && slug != "" {
      var _ := IncrementBlogView(store, slug);
    }
  }
}
