/**
 * The landing page: the case-folded text search combined with the category
 * selection, the featured/regular split of the result, the banner, heading
 * and count shown above the grid, and the page state with its handlers.
 */
module App {
  import opened Wrappers
  import opened JsString
  import opened Seqs
  import opened BlogTypes
  import BlogData
  import BlogFilters

  // ---------------------------------------------------------------------------
  // The search and category tests
  // ---------------------------------------------------------------------------

  /** Some tag of the post contains the (already lower-cased) needle. */
  predicate SomeTagIncludes(post: Post, needle: string)
  {
    exists k :: 0 <= k < |post.tags| && Includes(ToLowerCase(post.tags[k]), needle)
  }

  /** The case-folded text test, without the empty-query short cut. */
  predicate TextHit(post: Post, query: string)
  {
    var needle := ToLowerCase(query);
    Includes(ToLowerCase(post.title), needle)
      || Includes(ToLowerCase(post.excerpt), needle)
      || SomeTagIncludes(post, needle)
  }

  /** `matchesSearch`: the query is not trimmed, only lower-cased. */
  predicate MatchesSearch(post: Post, searchQuery: string)
  {
    searchQuery == "" || TextHit(post, searchQuery)
  }

  /** `matchesCategory`: the post's category is lower-cased, the selection is not. */
  predicate MatchesCategory(post: Post, selectedCategory: Option<string>)
  {
    selectedCategory == None || ToLowerCase(post.category) == selectedCategory.value
  }

  predicate Matches(post: Post, searchQuery: string, selectedCategory: Option<string>)
  {
    MatchesSearch(post, searchQuery) && MatchesCategory(post, selectedCategory)
  }

  /** `filteredPosts`. */
  function FilterPosts(posts: seq<Post>, searchQuery: string, selectedCategory: Option<string>): (r: seq<Post>)
    ensures IsSubsequence(r, posts)
    ensures forall p :: p in r <==> p in posts && Matches(p, searchQuery, selectedCategory)
  {
    var keep := (p: Post) => Matches(p, searchQuery, selectedCategory);
    FilterIsSubsequence(posts, keep);
    forall p ensures p in Filter(posts, keep) <==> p in posts && keep(p) {
      FilterMembership(posts, keep, p);
    }
    Filter(posts, keep)
  }

  /** The empty-query short cut changes nothing: the empty string is a
      substring of every title. */
  lemma ShortCutIsRedundant(post: Post, searchQuery: string)
    ensures MatchesSearch(post, searchQuery) <==> TextHit(post, searchQuery)
  {
    if searchQuery == "" {
      IncludesEmpty(ToLowerCase(post.title));
    }
  }

  /** With no query and no category every post is listed, in order. */
  lemma NoFiltersListEverything(posts: seq<Post>)
    ensures FilterPosts(posts, "", None) == posts
  {
    FilterAll(posts, (p: Post) => Matches(p, "", None));
  }

  /** Selecting a category only narrows the result of the same query. */
  lemma CategoryNarrows(posts: seq<Post>, searchQuery: string, slug: string)
    ensures IsSubsequence(FilterPosts(posts, searchQuery, Some(slug)), FilterPosts(posts, searchQuery, None))
  {
    FilterMonotone(posts, (p: Post) => Matches(p, searchQuery, Some(slug)), (p: Post) => Matches(p, searchQuery, None));
  }

  /** Filtering by the query and then by the category is the combined filter. */
  lemma FilterIsConjunction(posts: seq<Post>, searchQuery: string, selectedCategory: Option<string>)
    ensures FilterPosts(posts, searchQuery, selectedCategory)
      == Filter(Filter(posts, (p: Post) => MatchesSearch(p, searchQuery)), (p: Post) => MatchesCategory(p, selectedCategory))
  {
    FilterFilter(posts, (p: Post) => MatchesSearch(p, searchQuery), (p: Post) => MatchesCategory(p, selectedCategory),
      (p: Post) => Matches(p, searchQuery, selectedCategory));
  }

  /** A post with only the given title. */
  function TitledPost(title: string): Post
  {
    Post("x", title, "", "", Author("", "", ""), "", 0, "", [], false, "", "")
  }

  /** The query is compared untrimmed: a trailing space loses the match, while
      upper case in the query does not matter. */
  lemma QueryIsNotTrimmed()
    ensures MatchesSearch(TitledPost("React"), "REACT")
    ensures !MatchesSearch(TitledPost("React"), "react ")
  {
    var l := ToLowerCase("React");
    assert l == "react";
    assert ToLowerCase("REACT") == "react";
    assert MatchAt(l, "react", 0);
  }

  /** A selection is compared with the lower-cased category as it is: a
      capitalised selection matches nothing. */
  lemma SelectionIsNotFolded(post: Post)
    requires post.category == "Design"
    ensures MatchesCategory(post, Some("design"))
    ensures !MatchesCategory(post, Some("Design"))
  {
    assert ToLowerCase("Design") == "design";
  }

  // ---------------------------------------------------------------------------
  // Featured post, grid, banner, heading and count
  // ---------------------------------------------------------------------------

  /** `featuredPost`: the first featured post of the whole collection. */
  function FeaturedPost(posts: seq<Post>): (r: Option<Post>)
    ensures r.Some? ==> r.value.featured && exists k :: (0 <= k < |posts| && posts[k] == r.value &&
      forall j :: 0 <= j < k ==> !posts[j].featured)
    ensures r.None? ==> forall k :: 0 <= k < |posts| ==> !posts[k].featured
  {
    Find(posts, (p: Post) => p.featured)
  }

  /** `regularPosts`: the filtered posts that are not featured, in order. */
  function RegularPosts(filtered: seq<Post>): (r: seq<Post>)
    ensures IsSubsequence(r, filtered)
    ensures forall k :: 0 <= k < |r| ==> !r[k].featured
    ensures forall p :: p in r <==> p in filtered && !p.featured
  {
    var keep := (p: Post) => !p.featured;
    FilterIsSubsequence(filtered, keep);
    forall p ensures p in Filter(filtered, keep) <==> p in filtered && keep(p) {
      FilterMembership(filtered, keep, p);
    }
    Filter(filtered, keep)
  }

  /** The count above the grid includes the featured matches the grid drops. */
  lemma {:induction false} CountIncludesFeatured(filtered: seq<Post>)
    ensures |filtered| == |RegularPosts(filtered)| + |Filter(filtered, (p: Post) => p.featured)|
    decreases |filtered|
  {
    if filtered != [] {
      CountIncludesFeatured(filtered[1..]);
    }
  }

  /** `featuredPost && !searchQuery && !selectedCategory`. */
  predicate ShowFeaturedBanner(featured: Option<Post>, searchQuery: string, selectedCategory: Option<string>)
  {
    featured.Some? && searchQuery == "" && !Truthy(selectedCategory)
  }

  /** When the banner is shown the list below it is unfiltered, unless the
      selection is the empty slug, which is falsy yet still filters. */
  lemma BannerMeansUnfiltered(posts: seq<Post>, searchQuery: string, selectedCategory: Option<string>)
    requires ShowFeaturedBanner(FeaturedPost(posts), searchQuery, selectedCategory)
    requires selectedCategory != Some("")
    ensures FilterPosts(posts, searchQuery, selectedCategory) == posts
  {
    NoFiltersListEverything(posts);
  }

  /** The heading over the grid. */
  function SectionTitle(searchQuery: string, selectedCategory: Option<string>): (r: string)
    ensures r == "Latest Posts" <==> !BlogFilters.HasActiveFilters(selectedCategory, searchQuery)
    ensures r == "Search Results" || r == "Latest Posts"
  {
    if searchQuery != "" || Truthy(selectedCategory) then "Search Results" else "Latest Posts"
  }

  /** `{n} post{n !== 1 ? 's' : ''}`. */
  function CountLabel(n: nat): (r: string)
    ensures r == NatToString(n) + (if n == 1 then " post" else " posts")
    ensures |r| > 0 && r[|r| - 1] == 's' <==> n != 1
  {
    NatToString(n) + " post" + (if n != 1 then "s" else "")
  }

  /** The count label starts with the number, which reads back as `n`. */
  lemma CountLabelReadsBack(n: nat)
    ensures DigitsValue(CountLabel(n)[..|NatToString(n)|]) == n
  {
    assert CountLabel(n)[..|NatToString(n)|] == NatToString(n);
    NatToStringRoundTrip(n);
  }

  // ---------------------------------------------------------------------------
  // Page state
  // ---------------------------------------------------------------------------

  /** What the page renders. */
  datatype Screen =
    | Detail(post: Post)
    | Landing(banner: Option<Post>, title: string, countLabel: string, grid: seq<Post>)

  class AppState {
    const posts: seq<Post>
    var darkMode: bool
    var selectedPost: Option<Post>
    var searchQuery: string
    var selectedCategory: Option<string>

    constructor ()
      ensures posts == BlogData.BlogPosts
      ensures !darkMode && selectedPost == None && searchQuery == "" && selectedCategory == None
    {
      posts := BlogData.BlogPosts;
      darkMode := false;
      selectedPost := None;
      searchQuery := "";
      selectedCategory := None;
    }

    function FilteredPosts(): seq<Post>
      reads this
    {
      FilterPosts(posts, searchQuery, selectedCategory)
    }

    /** A selected post replaces the landing page by its detail view. The
        landing page shows the featured post as a banner only while no
        filter is active, then the heading, the count of all matches, and
        the grid of the matches that are not featured. */
    function Render(): (r: Screen)
      reads this
      ensures selectedPost.Some? <==> r.Detail?
      ensures selectedPost.Some? ==> r == Detail(selectedPost.value)
      ensures r.Landing? ==>
        (r.banner.Some? <==> FeaturedPost(posts).Some? && searchQuery == "" && !Truthy(selectedCategory))
      ensures r.Landing? && r.banner.Some? ==> r.banner == FeaturedPost(posts)
      ensures r.Landing? ==> r.title == SectionTitle(searchQuery, selectedCategory)
      ensures r.Landing? ==> r.countLabel == CountLabel(|FilteredPosts()|)
      ensures r.Landing? ==> r.grid == RegularPosts(FilteredPosts())
      ensures r.Landing? ==> forall k :: 0 <= k < |r.grid| ==> !r.grid[k].featured
    {
      match selectedPost
      case Some(p) => Detail(p)
      case None =>
        var featured := FeaturedPost(posts);
        Landing(
          if ShowFeaturedBanner(featured, searchQuery, selectedCategory) then featured else None,
          SectionTitle(searchQuery, selectedCategory),
          CountLabel(|FilteredPosts()|),
          RegularPosts(FilteredPosts()))
    }

    /** `handlePostClick`. */
    method PostClick(post: Post)
      modifies this
      ensures selectedPost == Some(post) && Render() == Detail(post)
      ensures darkMode == old(darkMode) && searchQuery == old(searchQuery)
      ensures selectedCategory == old(selectedCategory)
    {
      selectedPost := Some(post);
    }

    /** `handleBackToBlog`: back to the landing page with the filters kept. */
    method BackToBlog()
      modifies this
      ensures selectedPost == None && Render().Landing?
      ensures darkMode == old(darkMode) && searchQuery == old(searchQuery)
      ensures selectedCategory == old(selectedCategory)
    {
      selectedPost := None;
    }

    /** `handleSearch`: the query is stored as typed. */
    method Search(query: string)
      modifies this
      ensures searchQuery == query
      ensures darkMode == old(darkMode) && selectedPost == old(selectedPost)
      ensures selectedCategory == old(selectedCategory)
    {
      searchQuery := query;
    }

    /** `onCategoryChange`, bound to the category setter. */
    method ChangeCategory(category: Option<string>)
      modifies this
      ensures selectedCategory == category
      ensures darkMode == old(darkMode) && selectedPost == old(selectedPost)
      ensures searchQuery == old(searchQuery)
    {
      selectedCategory := category;
    }

    /** `handleClearFilters`: afterwards every post is listed again. */
    method ClearFilters()
      modifies this
      ensures searchQuery == "" && selectedCategory == None
      ensures FilteredPosts() == posts
      ensures darkMode == old(darkMode) && selectedPost == old(selectedPost)
    {
      searchQuery := "";
      selectedCategory := None;
      NoFiltersListEverything(posts);
    }

    /** The header's dark-mode toggle. */
    method ToggleDarkMode()
      modifies this
      ensures darkMode == !old(darkMode)
      ensures selectedPost == old(selectedPost) && searchQuery == old(searchQuery)
      ensures selectedCategory == old(selectedCategory)
    {
      darkMode := !darkMode;
    }
  }
}
