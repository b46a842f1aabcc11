/**
 * Blog index: the posts shown for the selected category and the search
 * query, split into the featured ones and the rest.
 */
module Blog {
  import opened JsString
  import Seqs

  /** A post's metadata, as the index lists it. */
  datatype Post = Post(
    slug: string,
    title: string,
    excerpt: string,
    date: string,
    readTime: string,
    category: string,
    tags: seq<string>,
    featured: bool)

  /** The category button that selects every post. */
  const ALL: string := "All"

  /** The category buttons, in the order they are drawn. */
  const CATEGORIES: seq<string> := ["All", "Programming", "Georgia-Tech", "Epiphany", "Machine Learning"]

  /** The page's two pieces of state: the selected category and the search text. */
  datatype Selection = Selection(category: string, query: string)

  /** On first render every category is selected and the search box is empty. */
  const INITIAL: Selection := Selection(ALL, "")

  predicate MatchesCategory(sel: Selection, post: Post)
  {
    sel.category == ALL || post.category == sel.category
  }

  /** The title or the excerpt contains the query, ignoring case. */
  predicate MatchesSearch(sel: Selection, post: Post)
  {
    var q := ToLower(sel.query);
    Includes(ToLower(post.title), q) || Includes(ToLower(post.excerpt), q)
  }

  predicate Shown(sel: Selection, post: Post)
  {
    MatchesCategory(sel, post) && MatchesSearch(sel, post)
  }

  /** The filter's callback, as a value to hand to `filter`. */
  function ShownBy(sel: Selection): Post -> bool
  {
    post => Shown(sel, post)
  }

  predicate IsFeatured(post: Post)
  {
    post.featured
  }

  predicate IsRegular(post: Post)
  {
    !post.featured
  }

  /** `filteredPosts`: the posts that match the category and the query, in list order. */
  function FilteredPosts(posts: seq<Post>, sel: Selection): (r: seq<Post>)
    ensures forall post :: post in r <==> post in posts && Shown(sel, post)
    ensures Seqs.SubsequenceOf(r, posts)
  {
    Seqs.FilterIsSubsequence(ShownBy(sel), posts);
    Seqs.Filter(ShownBy(sel), posts)
  }

  /** `featuredPosts`. */
  function FeaturedPosts(posts: seq<Post>, sel: Selection): (r: seq<Post>)
    ensures forall post :: post in r <==> post in posts && Shown(sel, post) && post.featured
  {
    Seqs.Filter(IsFeatured, FilteredPosts(posts, sel))
  }

  /** `regularPosts`. */
  function RegularPosts(posts: seq<Post>, sel: Selection): (r: seq<Post>)
    ensures forall post :: post in r <==> post in posts && Shown(sel, post) && !post.featured
  {
    Seqs.Filter(IsRegular, FilteredPosts(posts, sel))
  }

  /**
   * A category button's click: the button's category becomes the selected
   * one and the search text stays.
   */
  function ClickCategory(sel: Selection, category: string): (r: Selection)
    requires category in CATEGORIES
    ensures r.category in CATEGORIES && r.query == sel.query
    ensures forall post :: MatchesCategory(r, post) <==> category == ALL || post.category == category
  {
    sel.(category := category)
  }

  /** Typing in the search box: the text becomes the query and the category stays. */
  function TypeQuery(sel: Selection, query: string): (r: Selection)
    ensures r.category == sel.category && r.query == query
  {
    sel.(query := query)
  }

  /** The featured section is drawn only when it has posts. */
  predicate ShowsFeaturedSection(posts: seq<Post>, sel: Selection)
  {
    |FeaturedPosts(posts, sel)| > 0
  }

  /** The "No articles found" message is drawn when no post is left. */
  predicate ShowsNoArticles(posts: seq<Post>, sel: Selection)
  {
    |FilteredPosts(posts, sel)| == 0
  }

  /** An empty query is contained in every text, so it filters nothing out. */
  lemma EmptyQueryMatches(post: Post)
    ensures MatchesSearch(Selection(ALL, ""), post)
  {
    assert ToLower("") == "";
    IncludesEmpty(ToLower(post.title));
  }

  /** With every category selected and no query, every post is listed, in order. */
  lemma InitialShowsAll(posts: seq<Post>)
    ensures FilteredPosts(posts, INITIAL) == posts
  {
    forall i | 0 <= i < |posts| ensures ShownBy(INITIAL)(posts[i]) {
      EmptyQueryMatches(posts[i]);
    }
    Seqs.FilterKeepsAll(ShownBy(INITIAL), posts);
  }

  /**
   * The featured and the regular posts share no post, and between them hold
   * exactly the filtered posts, each list in the filtered order.
   */
  lemma FeaturedRegularPartition(posts: seq<Post>, sel: Selection)
    ensures forall post :: !(post in FeaturedPosts(posts, sel) && post in RegularPosts(posts, sel))
    ensures multiset(FeaturedPosts(posts, sel)) + multiset(RegularPosts(posts, sel)) == multiset(FilteredPosts(posts, sel))
    ensures Seqs.SubsequenceOf(FeaturedPosts(posts, sel), FilteredPosts(posts, sel))
    ensures Seqs.SubsequenceOf(RegularPosts(posts, sel), FilteredPosts(posts, sel))
  {
    var filtered := FilteredPosts(posts, sel);
    Seqs.FilterPartition(IsFeatured, IsRegular, filtered);
    Seqs.FilterIsSubsequence(IsFeatured, filtered);
    Seqs.FilterIsSubsequence(IsRegular, filtered);
  }

  /**
   * After a click on a button other than "All", every listed post is of that
   * category; after a click on "All", the category filters nothing out. In
   * both cases the query is the one typed before the click.
   */
  lemma {:induction false} ClickedCategoryListed(posts: seq<Post>, sel: Selection, category: string)
    requires category in CATEGORIES
    ensures forall post :: post in FilteredPosts(posts, ClickCategory(sel, category)) <==>
      post in posts && (category == ALL || post.category == category) && MatchesSearch(sel, post)
  {
    var r := ClickCategory(sel, category);
    forall post
      ensures post in FilteredPosts(posts, r) <==>
        post in posts && (category == ALL || post.category == category) && MatchesSearch(sel, post)
    {
      assert MatchesSearch(r, post) == MatchesSearch(sel, post);
    }
  }

  /** Every selection the page can reach has one of the buttons' categories selected. */
  lemma {:induction false} ReachableCategory(clicks: seq<string>, queries: seq<string>)
    requires forall i :: 0 <= i < |clicks| ==> clicks[i] in CATEGORIES
    ensures Replay(clicks, queries).category in CATEGORIES
  {
    if |clicks| > 0 {
      ReachableCategory(clicks[..|clicks| - 1], queries);
    }
  }

  /**
   * The selection after the given clicks and the given search texts, the
   * clicks taken in order and the last search text kept; the page starts at
   * `INITIAL`.
   */
  function Replay(clicks: seq<string>, queries: seq<string>): (r: Selection)
    requires forall i :: 0 <= i < |clicks| ==> clicks[i] in CATEGORIES
    ensures r.query == if |queries| == 0 then "" else queries[|queries| - 1]
  {
    if |clicks| == 0 then
      if |queries| == 0 then INITIAL else TypeQuery(INITIAL, queries[|queries| - 1])
    else
      ClickCategory(Replay(clicks[..|clicks| - 1], queries), clicks[|clicks| - 1])
  }

  /** The featured section is drawn exactly when some listed post is featured. */
  lemma ShowsFeaturedSectionIff(posts: seq<Post>, sel: Selection)
    ensures ShowsFeaturedSection(posts, sel) <==> exists i :: 0 <= i < |posts| && Shown(sel, posts[i]) && posts[i].featured
  {
    var r := FeaturedPosts(posts, sel);
    if |r| > 0 {
      assert r[0] in r;
    }
    if exists i :: 0 <= i < |posts| && Shown(sel, posts[i]) && posts[i].featured {
      var i :| 0 <= i < |posts| && Shown(sel, posts[i]) && posts[i].featured;
      assert posts[i] in r;
    }
  }

  /** The message appears exactly when no post matches both the category and the query. */
  lemma NoArticlesIff(posts: seq<Post>, sel: Selection)
    ensures ShowsNoArticles(posts, sel) <==> forall i :: 0 <= i < |posts| ==> !Shown(sel, posts[i])
  {
    var r := FilteredPosts(posts, sel);
    if |r| > 0 {
      assert r[0] in r;
    }
    if exists i :: 0 <= i < |posts| && Shown(sel, posts[i]) {
      var i :| 0 <= i < |posts| && Shown(sel, posts[i]);
      assert posts[i] in r;
    }
  }
}
