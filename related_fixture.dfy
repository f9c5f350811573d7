/**
 * Related posts over the shipped collection. Ranking reads only the ids,
 * categories, tags, author names and publication dates, so the results are
 * proved for every six-post collection that agrees with the shipped one on
 * those fields, and then for the shipped collection itself. The dates fall
 * strictly along the collection, so the recency fallback keeps collection
 * order; post 1 shares nothing with any other post and falls back to the next
 * three posts, while post 5 is related to post 3 (same category) and post 4
 * (a shared tag), in that order.
 */
module RelatedFixture {
  import opened JsString
  import opened Seqs
  import opened BlogTypes
  import opened BlogData
  import opened RelatedPosts

  /** The fields ranking reads, as the shipped collection has them. */
  predicate LikeShippedPosts(posts: seq<Post>)
  {
    |posts| == 6
    && posts[0].id == "1" && posts[0].category == "Technology" && posts[0].author.name == "Sarah Chen"
    && posts[0].tags == ["Web Development", "AI", "Performance", "Trends"] && posts[0].publishedAt == "2024-01-15"
    && posts[1].id == "2" && posts[1].category == "Development" && posts[1].author.name == "Michael Rodriguez"
    && posts[1].tags == ["React", "JavaScript", "Architecture", "Best Practices"] && posts[1].publishedAt == "2024-01-12"
    && posts[2].id == "3" && posts[2].category == "Design" && posts[2].author.name == "Emma Thompson"
    && posts[2].tags == ["CSS", "Layout", "Grid", "Flexbox"] && posts[2].publishedAt == "2024-01-10"
    && posts[3].id == "4" && posts[3].category == "Backend" && posts[3].author.name == "David Kim"
    && posts[3].tags == ["API", "Design", "Backend", "Documentation"] && posts[3].publishedAt == "2024-01-08"
    && posts[4].id == "5" && posts[4].category == "Design" && posts[4].author.name == "Lisa Park"
    && posts[4].tags == ["Mobile", "UX", "Responsive", "Design"] && posts[4].publishedAt == "2024-01-05"
    && posts[5].id == "6" && posts[5].category == "Development" && posts[5].author.name == "Alex Johnson"
    && posts[5].tags == ["TypeScript", "JavaScript", "Best Practices", "Enterprise"] && posts[5].publishedAt == "2024-01-03"
  }

  lemma ShippedPostsAreLike()
    ensures LikeShippedPosts(BlogPosts)
  {
  }

  /** A well-formed date literal and its key. */
  lemma DateKeyOfLiteral(s: string, key: int)
    requires |s| == 10 && s[4] == '-' && s[7] == '-'
    requires IsDigit(s[0]) && IsDigit(s[1]) && IsDigit(s[2]) && IsDigit(s[3])
    requires IsDigit(s[5]) && IsDigit(s[6]) && IsDigit(s[8]) && IsDigit(s[9])
    requires 1 <= DigitOf(s[5]) * 10 + DigitOf(s[6]) <= 12 && 1 <= DigitOf(s[8]) * 10 + DigitOf(s[9]) <= 28
    requires key == DigitOf(s[0]) * 10000000 + DigitOf(s[1]) * 1000000 + DigitOf(s[2]) * 100000
      + DigitOf(s[3]) * 10000 + DigitOf(s[5]) * 1000 + DigitOf(s[6]) * 100 + DigitOf(s[8]) * 10 + DigitOf(s[9])
    ensures IsDateString(s) && DateKey(s) == key
  {
    TwoDigits(s[5..7]);
    TwoDigits(s[8..10]);
    DateKeyDigits(s);
  }

  lemma DateKeys(posts: seq<Post>)
    requires LikeShippedPosts(posts)
    ensures DateKey(posts[0].publishedAt) == 20240115
    ensures DateKey(posts[1].publishedAt) == 20240112
    ensures DateKey(posts[2].publishedAt) == 20240110
    ensures DateKey(posts[3].publishedAt) == 20240108
    ensures DateKey(posts[4].publishedAt) == 20240105
    ensures DateKey(posts[5].publishedAt) == 20240103
  {
    DateKeyOfLiteral("2024-01-15", 20240115);
    DateKeyOfLiteral("2024-01-12", 20240112);
    DateKeyOfLiteral("2024-01-10", 20240110);
    DateKeyOfLiteral("2024-01-08", 20240108);
    DateKeyOfLiteral("2024-01-05", 20240105);
    DateKeyOfLiteral("2024-01-03", 20240103);
  }

  lemma TagsShared(post: Post, current: Post)
    requires |post.tags| == 4
    ensures SharedTags(post, current) ==
      (if post.tags[0] in current.tags then 1 else 0) + (if post.tags[1] in current.tags then 1 else 0)
      + (if post.tags[2] in current.tags then 1 else 0) + (if post.tags[3] in current.tags then 1 else 0)
  {
    FilterOfFour(post.tags, (t: string) => t in current.tags);
  }

  /** Ids are distinct, so leaving out post `k` leaves the other five. */
  lemma CandidatesWithout(posts: seq<Post>, k: nat)
    requires LikeShippedPosts(posts) && k < 6
    ensures Candidates(posts, posts[k]) == posts[..k] + posts[k + 1..]
  {
    FilterOfSix(posts, (p: Post) => p.id != posts[k].id);
  }

  /** Dates decrease along any collection shaped like the shipped one. */
  lemma LikeShippedIsNewestFirst(posts: seq<Post>)
    requires LikeShippedPosts(posts)
    ensures NewestFirst(posts)
  {
    DateKeys(posts);
    StepwiseNewestFirst(posts);
  }

  /** Post `i` scores 0 against post 1. */
  lemma ScoreAgainstFirst(posts: seq<Post>, i: nat)
    requires LikeShippedPosts(posts) && 1 <= i < 6
    ensures Score(posts[i], posts[0]) == 0
  {
    TagsShared(posts[i], posts[0]);
  }

  /** Every other post scores 0 against post 1. */
  lemma ScoresAgainstFirst(posts: seq<Post>)
    requires LikeShippedPosts(posts)
    ensures forall p :: p in posts && p.id != posts[0].id ==> Score(p, posts[0]) == 0
  {
    forall i | 1 <= i < 6 ensures Score(posts[i], posts[0]) == 0 {
      ScoreAgainstFirst(posts, i);
    }
  }

  /** A six-post collection whose other posts all score 0 against the first
      and whose dates decrease relates the first post to the next three. */
  lemma FallbackToNextThree(posts: seq<Post>)
    requires |posts| == 6 && NewestFirst(posts)
    requires Candidates(posts, posts[0]) == posts[1..]
    requires forall p :: p in posts && p.id != posts[0].id ==> Score(p, posts[0]) == 0
    ensures GetRelatedPosts(posts, posts[0]) == [posts[1], posts[2], posts[3]]
  {
    FallbackIffNoPositiveScore(posts, posts[0]);
    RecentInCollectionOrder(posts, posts[0]);
  }

  /** What the recency fallback needs of post 1: no other post scores
      against it, the others are its candidates, and dates decrease. */
  lemma FirstPostFacts(posts: seq<Post>)
    requires LikeShippedPosts(posts)
    ensures |posts| == 6 && NewestFirst(posts)
    ensures Candidates(posts, posts[0]) == posts[1..]
    ensures forall p :: p in posts && p.id != posts[0].id ==> Score(p, posts[0]) == 0
  {
    ScoresAgainstFirst(posts);
    LikeShippedIsNewestFirst(posts);
    CandidatesWithout(posts, 0);
    assert posts[..0] + posts[1..] == posts[1..];
  }

  /** Post 1 falls back to the recency branch, which lists posts 2 to 4. */
  lemma RelatedToFirst(posts: seq<Post>)
    requires LikeShippedPosts(posts)
    ensures GetRelatedPosts(posts, posts[0]) == [posts[1], posts[2], posts[3]]
  {
    FirstPostFacts(posts);
    FallbackToNextThree(posts);
  }

  /** Post `i` scores against post 5: post 3 shares the category, post 4 the
      tag "Design", the others nothing. */
  lemma ScoreAgainstFifth(posts: seq<Post>, i: nat)
    requires LikeShippedPosts(posts) && i < 6 && i != 4
    ensures Score(posts[i], posts[4]) == if i == 2 then 2 else if i == 3 then 1 else 0
  {
    TagsShared(posts[i], posts[4]);
  }

  /** Of five scored candidates keyed 0, 0, 2, 1, 0 the scored branch keeps the
      third and the fourth, higher score first. */
  lemma RankedOfFive(sc: seq<Keyed<Post>>)
    requires |sc| == 5
    requires sc[0].key == 0 && sc[1].key == 0 && sc[2].key == 2 && sc[3].key == 1 && sc[4].key == 0
    ensures Items(Take(SortDesc(Filter(sc, (kp: Keyed<Post>) => kp.key > 0)), 3)) == [sc[2].item, sc[3].item]
  {
    var pos := Filter(sc, (kp: Keyed<Post>) => kp.key > 0);
    FilterOfFive(sc, (kp: Keyed<Post>) => kp.key > 0);
    assert pos == [sc[2], sc[3]];
    SortDescOfSorted(pos);
    assert Take(pos, 3) == pos;
  }

  /** Post 5 is related to post 3 (same category, 2 points) and then post 4
      (one shared tag, 1 point). */
  lemma RelatedToFifth(posts: seq<Post>)
    requires LikeShippedPosts(posts)
    ensures GetRelatedPosts(posts, posts[4]) == [posts[2], posts[3]]
  {
    var sc := Scored(posts, posts[4]);
    CandidatesWithout(posts, 4);
    var c := posts[..4] + posts[5..];
    assert forall i :: 0 <= i < |sc| ==> sc[i].item == Items(sc)[i] == c[i];
    assert c == [posts[0], posts[1], posts[2], posts[3], posts[5]];
    ScoreAgainstFifth(posts, 0);
    ScoreAgainstFifth(posts, 1);
    ScoreAgainstFifth(posts, 2);
    ScoreAgainstFifth(posts, 3);
    ScoreAgainstFifth(posts, 5);
    RankedOfFive(sc);
  }

  /** Dates strictly decrease along the shipped collection. */
  lemma ShippedNewestFirst()
    ensures NewestFirst(BlogPosts)
  {
    ShippedPostsAreLike();
    LikeShippedIsNewestFirst(BlogPosts);
  }

  /** In the shipped collection the fallback always follows collection order. */
  lemma ShippedRecentInCollectionOrder(current: Post)
    ensures Recent(BlogPosts, current) == Take(Candidates(BlogPosts, current), 3)
  {
    ShippedNewestFirst();
    RecentInCollectionOrder(BlogPosts, current);
  }

  /** Post 1 shares nothing with the others: posts 2, 3 and 4 are shown. */
  lemma ShippedRelatedToFirst()
    ensures GetRelatedPosts(BlogPosts, Post1) == [Post2, Post3, Post4]
  {
    ShippedPostsAreLike();
    RelatedToFirst(BlogPosts);
  }

  /** Post 5 is shown posts 3 and 4. */
  lemma ShippedRelatedToFifth()
    ensures GetRelatedPosts(BlogPosts, Post5) == [Post3, Post4]
  {
    ShippedPostsAreLike();
    RelatedToFifth(BlogPosts);
  }
}
