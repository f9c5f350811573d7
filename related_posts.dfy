/**
 * The "Related Articles" section under a post: every other post is scored
 * against the current one, the positively scored ones are stably sorted by
 * score (highest first) and the first three are shown; when no post scores
 * above zero, the three most recent other posts are shown instead.
 */
module RelatedPosts {
  import opened JsString
  import opened Seqs
  import opened BlogTypes

  // ---------------------------------------------------------------------------
  // Scoring
  // ---------------------------------------------------------------------------

  /** The candidate's tags that the current post also carries, counted once
      per candidate tag. */
  function SharedTags(post: Post, current: Post): (r: nat)
    ensures r <= |post.tags|
  {
    |Filter(post.tags, (t: string) => t in current.tags)|
  }

  /** 2 for the same category, 1 per shared tag, 1 for the same author name. */
  function Score(post: Post, current: Post): (r: nat)
    ensures r <= 3 + |post.tags|
    ensures post.category == current.category ==> r >= 2
  {
    (if post.category == current.category then 2 else 0)
      + SharedTags(post, current)
      + (if post.author.name == current.author.name then 1 else 0)
  }

  /** A post scores above zero exactly when it shares the category, a tag or
      the author, and never more than all three parts together allow. */
  lemma ScorePositiveIff(post: Post, current: Post)
    ensures Score(post, current) > 0 <==>
      post.category == current.category
      || post.author.name == current.author.name
      || exists k :: 0 <= k < |post.tags| && post.tags[k] in current.tags
    ensures Score(post, current) <= 3 + |post.tags|
  {
    FilterEmptyIff(post.tags, (t: string) => t in current.tags);
  }

  // ---------------------------------------------------------------------------
  // The two branches
  // ---------------------------------------------------------------------------

  /** `allPosts.filter(post => post.id !== currentPost.id)`. */
  function Candidates(allPosts: seq<Post>, current: Post): (r: seq<Post>)
    ensures |r| <= |allPosts|
    ensures forall k :: 0 <= k < |r| ==> r[k].id != current.id
  {
    Filter(allPosts, (p: Post) => p.id != current.id)
  }

  /** The candidates are the other posts, in collection order. */
  lemma CandidatesAreOthers(allPosts: seq<Post>, current: Post)
    ensures forall p :: p in Candidates(allPosts, current) <==> p in allPosts && p.id != current.id
    ensures IsSubsequence(Candidates(allPosts, current), allPosts)
  {
    var keep := (p: Post) => p.id != current.id;
    FilterIsSubsequence(allPosts, keep);
    forall p ensures p in Filter(allPosts, keep) <==> p in allPosts && keep(p) {
      FilterMembership(allPosts, keep, p);
    }
  }

  /** The candidates paired with their scores, in collection order. */
  function Scored(allPosts: seq<Post>, current: Post): (r: seq<Keyed<Post>>)
    ensures Items(r) == Candidates(allPosts, current)
    ensures forall i :: 0 <= i < |r| ==> r[i].key == Score(r[i].item, current)
  {
    var c := Candidates(allPosts, current);
    var r := seq(|c|, i requires 0 <= i < |c| => Keyed(c[i], Score(c[i], current)));
    assert Items(r) == c;
    r
  }

  /** The scored candidates with a score above zero, in collection order. */
  function Positive(allPosts: seq<Post>, current: Post): (r: seq<Keyed<Post>>)
    ensures |r| <= |Candidates(allPosts, current)|
    ensures forall k :: 0 <= k < |r| ==> r[k].key > 0
  {
    Filter(Scored(allPosts, current), (kp: Keyed<Post>) => kp.key > 0)
  }

  /** The scored branch: positive scores, stably sorted highest first, at most
      three. */
  function Ranked(allPosts: seq<Post>, current: Post): (r: seq<Post>)
    ensures |r| <= 3
  {
    Items(Take(SortDesc(Positive(allPosts, current)), 3))
  }

  /** The `YYYY-MM-DD` layout: ten characters, dashes at 4 and 7, digits
      elsewhere. */
  predicate HasDateShape(s: string)
  {
    |s| == 10 && s[4] == '-' && s[7] == '-'
      && forall i :: 0 <= i < 10 && i != 4 && i != 7 ==> IsDigit(s[i])
  }

  function Year(s: string): nat
    requires HasDateShape(s)
  {
    DigitsValue(s[0..4])
  }

  function Month(s: string): nat
    requires HasDateShape(s)
  {
    DigitsValue(s[5..7])
  }

  function Day(s: string): nat
    requires HasDateShape(s)
  {
    DigitsValue(s[8..10])
  }

  /** Gregorian leap years: every fourth year, except centuries not divisible
      by 400. */
  predicate IsLeapYear(year: nat)
  {
    year % 4 == 0 && (year % 100 != 0 || year % 400 == 0)
  }

  /** The number of days of a month of the proleptic Gregorian calendar. */
  function DaysInMonth(year: nat, month: nat): (r: nat)
    requires 1 <= month <= 12
    ensures 28 <= r <= 31
    ensures r == 29 <==> month == 2 && IsLeapYear(year)
  {
    if month == 2 then (if IsLeapYear(year) then 29 else 28)
    else if month == 4 || month == 6 || month == 9 || month == 11 then 30
    else 31
  }

  /** A `YYYY-MM-DD` string naming a day of the calendar; milliseconds since
      the epoch order these as the date key does: year, then month, then day. */
  predicate IsDateString(s: string)
  {
    HasDateShape(s) && 1 <= Month(s) <= 12 && 1 <= Day(s) <= DaysInMonth(Year(s), Month(s))
  }

  /** The sort key of a publication date; a malformed date, or one naming no
      day of the calendar, gets key 0, and only those do. */
  function DateKey(s: string): (r: int)
    ensures r >= 0
    ensures r == 0 <==> !IsDateString(s)
  {
    if IsDateString(s) then Year(s) * 10000 + Month(s) * 100 + Day(s) else 0
  }

  function DigitOf(c: char): int
  {
    c as int - '0' as int
  }

  lemma FourDigits(s: string)
    requires |s| == 4 && forall i :: 0 <= i < 4 ==> IsDigit(s[i])
    ensures DigitsValue(s) == DigitOf(s[0]) * 1000 + DigitOf(s[1]) * 100 + DigitOf(s[2]) * 10 + DigitOf(s[3])
  {
    var a3 := s[..3];
    var a2 := a3[..2];
    var a1 := a2[..1];
    assert a1[..0] == [];
    assert DigitsValue(a1) == DigitOf(s[0]);
    assert DigitsValue(a2) == DigitsValue(a1) * 10 + DigitOf(s[1]);
    assert DigitsValue(a3) == DigitsValue(a2) * 10 + DigitOf(s[2]);
  }

  lemma TwoDigits(s: string)
    requires |s| == 2 && IsDigit(s[0]) && IsDigit(s[1])
    ensures DigitsValue(s) == DigitOf(s[0]) * 10 + DigitOf(s[1])
  {
    var a := s[..1];
    assert a[..0] == [];
    assert DigitsValue(a) == DigitOf(s[0]);
  }

  /** The key of a well-formed date is its eight digits read as one decimal
      number. */
  lemma DateKeyDigits(s: string)
    requires IsDateString(s)
    ensures DateKey(s) == DigitOf(s[0]) * 10000000 + DigitOf(s[1]) * 1000000 + DigitOf(s[2]) * 100000
      + DigitOf(s[3]) * 10000 + DigitOf(s[5]) * 1000 + DigitOf(s[6]) * 100 + DigitOf(s[8]) * 10 + DigitOf(s[9])
  {
    FourDigits(s[0..4]);
    TwoDigits(s[5..7]);
    TwoDigits(s[8..10]);
  }

  /** The key compares two well-formed dates by year, then month, then day. */
  lemma DateKeyOrder(s: string, t: string)
    requires IsDateString(s) && IsDateString(t)
    ensures DateKey(s) > DateKey(t) <==>
      Year(s) > Year(t)
      || (Year(s) == Year(t) && Month(s) > Month(t))
      || (Year(s) == Year(t) && Month(s) == Month(t) && Day(s) > Day(t))
  {
    TwoDigits(s[5..7]);
    TwoDigits(s[8..10]);
    TwoDigits(t[5..7]);
    TwoDigits(t[8..10]);
  }

  /** Out-of-range months and days name no date and get key 0, while the leap
      day of a leap year is a date. */
  lemma CalendarRanges()
    ensures DateKey("2024-13-01") == 0
    ensures DateKey("2024-00-10") == 0
    ensures DateKey("2024-02-31") == 0
    ensures DateKey("2023-02-29") == 0
    ensures DateKey("2024-02-29") == 20240229
  {
    TwoDigits("13");
    TwoDigits("00");
    TwoDigits("31");
    TwoDigits("29");
    TwoDigits("02");
    FourDigits("2024");
    FourDigits("2023");
    assert "2024-13-01"[5..7] == "13";
    assert "2024-00-10"[5..7] == "00";
    assert "2024-02-31"[5..7] == "02" && "2024-02-31"[8..10] == "31";
    assert "2023-02-29"[0..4] == "2023" && "2023-02-29"[5..7] == "02" && "2023-02-29"[8..10] == "29";
    assert "2024-02-29"[0..4] == "2024" && "2024-02-29"[5..7] == "02" && "2024-02-29"[8..10] == "29";
  }

  /** The candidates keyed by publication date, in collection order. */
  function Dated(allPosts: seq<Post>, current: Post): (r: seq<Keyed<Post>>)
    ensures Items(r) == Candidates(allPosts, current)
    ensures forall i :: 0 <= i < |r| ==> r[i].key == DateKey(r[i].item.publishedAt)
  {
    var c := Candidates(allPosts, current);
    var r := seq(|c|, i requires 0 <= i < |c| => Keyed(c[i], DateKey(c[i].publishedAt)));
    assert Items(r) == c;
    r
  }

  /** The fallback branch: the three most recent candidates. */
  function Recent(allPosts: seq<Post>, current: Post): (r: seq<Post>)
    ensures |r| == if |Candidates(allPosts, current)| < 3 then |Candidates(allPosts, current)| else 3
  {
    SortDescSortedPermutation(Dated(allPosts, current));
    Items(Take(SortDesc(Dated(allPosts, current)), 3))
  }

  /** `getRelatedPosts`. */
  function GetRelatedPosts(allPosts: seq<Post>, current: Post): (r: seq<Post>)
    ensures |r| <= 3
    ensures Ranked(allPosts, current) != [] ==> r == Ranked(allPosts, current)
    ensures Ranked(allPosts, current) == [] ==> r == Recent(allPosts, current)
  {
    var related := Ranked(allPosts, current);
    if |related| == 0 then Recent(allPosts, current) else related
  }

  /** The section is rendered only for a non-empty list. */
  predicate RendersSection(related: seq<Post>)
  {
    |related| != 0
  }

  // ---------------------------------------------------------------------------
  // Properties
  // ---------------------------------------------------------------------------

  /** The first items of a stably sorted keyed list come from that list. */
  lemma TakenItemsFrom<T>(s: seq<Keyed<T>>, n: nat, x: T)
    requires x in Items(Take(SortDesc(s), n))
    ensures exists kp :: kp in s && kp.item == x
  {
    var t := Take(SortDesc(s), n);
    var i :| 0 <= i < |Items(t)| && Items(t)[i] == x;
    SortDescSortedPermutation(s);
    assert t[i] in multiset(SortDesc(s));
  }

  /** Every related post is another post of the collection. */
  lemma RelatedAreOtherPosts(allPosts: seq<Post>, current: Post, p: Post)
    requires p in GetRelatedPosts(allPosts, current)
    ensures p in allPosts && p.id != current.id
  {
    CandidatesAreOthers(allPosts, current);
    if Ranked(allPosts, current) != [] {
      TakenItemsFrom(Positive(allPosts, current), 3, p);
      var kp :| kp in Positive(allPosts, current) && kp.item == p;
      FilterMembership(Scored(allPosts, current), (kp: Keyed<Post>) => kp.key > 0, kp);
      var i :| 0 <= i < |Scored(allPosts, current)| && Scored(allPosts, current)[i] == kp;
      assert Items(Scored(allPosts, current))[i] == p;
    } else {
      TakenItemsFrom(Dated(allPosts, current), 3, p);
      var kp :| kp in Dated(allPosts, current) && kp.item == p;
      var i :| 0 <= i < |Dated(allPosts, current)| && Dated(allPosts, current)[i] == kp;
      assert Items(Dated(allPosts, current))[i] == p;
    }
  }

  /** Taking up to three of a sorted list leaves it empty only when the list is. */
  lemma TakeSortedEmptyIff<T>(s: seq<Keyed<T>>)
    ensures Items(Take(SortDesc(s), 3)) == [] <==> s == []
  {
    SortDescSortedPermutation(s);
  }

  /** No positively scored candidate exactly when every other post scores 0. */
  lemma PositiveEmptyIff(allPosts: seq<Post>, current: Post)
    ensures Positive(allPosts, current) == [] <==>
      forall p :: p in allPosts && p.id != current.id ==> Score(p, current) == 0
  {
    var sc := Scored(allPosts, current);
    CandidatesAreOthers(allPosts, current);
    FilterEmptyIff(sc, (kp: Keyed<Post>) => kp.key > 0);
    forall p | p in allPosts && p.id != current.id
      ensures exists i :: 0 <= i < |sc| && sc[i].item == p
    {
      assert p in Items(sc);
      var i :| 0 <= i < |Items(sc)| && Items(sc)[i] == p;
    }
    forall i | 0 <= i < |sc| ensures sc[i].item in allPosts && sc[i].item.id != current.id {
      assert Items(sc)[i] == sc[i].item;
    }
  }

  /** The scored branch is empty exactly when no other post scores above zero,
      which is when the fallback is taken. */
  lemma FallbackIffNoPositiveScore(allPosts: seq<Post>, current: Post)
    ensures Ranked(allPosts, current) == [] <==>
      forall p :: p in allPosts && p.id != current.id ==> Score(p, current) == 0
  {
    TakeSortedEmptyIff(Positive(allPosts, current));
    PositiveEmptyIff(allPosts, current);
  }

  /** Every positively scored entry carries its post's score. */
  lemma PositiveKeys(allPosts: seq<Post>, current: Post, kp: Keyed<Post>)
    requires kp in Positive(allPosts, current)
    ensures kp.key > 0 && kp.key == Score(kp.item, current)
  {
    var sc := Scored(allPosts, current);
    FilterMembership(sc, (kp: Keyed<Post>) => kp.key > 0, kp);
    var m :| 0 <= m < |sc| && sc[m] == kp;
  }

  /** The items of a prefix are the prefix of the items. */
  lemma TakeItems<T>(s: seq<Keyed<T>>, n: nat)
    ensures Items(Take(s, n)) == Items(s)[..|Take(s, n)|]
  {
  }

  /** The scored branch holds only positively scored posts, by non-increasing
      score, and is the first at most three of the stably sorted list. */
  lemma RankedIsSortedPrefix(allPosts: seq<Post>, current: Post)
    ensures var sorted := SortDesc(Positive(allPosts, current));
      SortedDesc(sorted) && multiset(sorted) == multiset(Positive(allPosts, current))
      && Ranked(allPosts, current) == Items(sorted)[..|Ranked(allPosts, current)|]
      && |Ranked(allPosts, current)| == if |sorted| < 3 then |sorted| else 3
    ensures forall i :: 0 <= i < |Ranked(allPosts, current)| ==> Score(Ranked(allPosts, current)[i], current) > 0
    ensures forall i, j :: 0 <= i < j < |Ranked(allPosts, current)| ==>
      Score(Ranked(allPosts, current)[i], current) >= Score(Ranked(allPosts, current)[j], current)
  {
    var pos := Positive(allPosts, current);
    var sorted := SortDesc(pos);
    SortDescSortedPermutation(pos);
    TakeItems(sorted, 3);
    var r := Ranked(allPosts, current);
    forall i | 0 <= i < |r| ensures r[i] == sorted[i].item && sorted[i].key == Score(r[i], current) > 0 {
      assert sorted[i] in multiset(pos);
      PositiveKeys(allPosts, current, sorted[i]);
    }
  }

  /** Posts of equal score keep their collection order. */
  lemma RankedIsStable(allPosts: seq<Post>, current: Post, score: int)
    ensures WithKey(SortDesc(Positive(allPosts, current)), score) == WithKey(Positive(allPosts, current), score)
  {
    SortDescStable(Positive(allPosts, current), score);
  }

  /** The fallback holds the most recent other posts, latest first, with posts
      of the same date in collection order. */
  lemma RecentIsNewestFirst(allPosts: seq<Post>, current: Post, date: int)
    ensures SortedDesc(SortDesc(Dated(allPosts, current)))
    ensures WithKey(SortDesc(Dated(allPosts, current)), date) == WithKey(Dated(allPosts, current), date)
    ensures Recent(allPosts, current) == Items(SortDesc(Dated(allPosts, current)))[..|Recent(allPosts, current)|]
  {
    var sorted := SortDesc(Dated(allPosts, current));
    SortDescSortedPermutation(Dated(allPosts, current));
    SortDescStable(Dated(allPosts, current), date);
    var t := Take(sorted, 3);
    assert forall i :: 0 <= i < |t| ==> Recent(allPosts, current)[i] == t[i].item;
  }

  /** Publication dates strictly decrease along the list. */
  predicate NewestFirst(posts: seq<Post>)
  {
    forall i, j :: 0 <= i < j < |posts| ==> DateKey(posts[i].publishedAt) > DateKey(posts[j].publishedAt)
  }

  /** Dates that decrease from each post to the next decrease throughout. */
  lemma {:induction false} StepwiseNewestFirst(posts: seq<Post>)
    requires forall i :: 0 <= i < |posts| - 1 ==> DateKey(posts[i].publishedAt) > DateKey(posts[i + 1].publishedAt)
    ensures NewestFirst(posts)
    decreases |posts|
  {
    if |posts| > 1 {
      var tail := posts[1..];
      forall i | 0 <= i < |tail| - 1 ensures DateKey(tail[i].publishedAt) > DateKey(tail[i + 1].publishedAt) {
        assert tail[i] == posts[i + 1] && tail[i + 1] == posts[i + 2];
      }
      StepwiseNewestFirst(tail);
      forall i, j | 0 <= i < j < |posts| ensures DateKey(posts[i].publishedAt) > DateKey(posts[j].publishedAt) {
        assert tail[j - 1] == posts[j];
        if i > 0 {
          assert tail[i - 1] == posts[i];
        } else if j > 1 {
          assert tail[0] == posts[1];
        }
      }
    }
  }

  /** A post newer than every post of a newest-first list can go in front. */
  lemma ConsNewestFirst(p: Post, t: seq<Post>)
    requires NewestFirst(t)
    requires forall j :: 0 <= j < |t| ==> DateKey(p.publishedAt) > DateKey(t[j].publishedAt)
    ensures NewestFirst([p] + t)
  {
    var r := [p] + t;
    forall i, j | 0 <= i < j < |r| ensures DateKey(r[i].publishedAt) > DateKey(r[j].publishedAt) {
      assert r[j] == t[j - 1];
      if i > 0 {
        assert r[i] == t[i - 1];
      }
    }
  }

  /** What survives a filter of the tail is older than the first post. */
  lemma OlderAfterFilter(posts: seq<Post>, keep: Post -> bool)
    requires posts != [] && NewestFirst(posts)
    ensures forall j :: 0 <= j < |Filter(posts[1..], keep)| ==>
      DateKey(posts[0].publishedAt) > DateKey(Filter(posts[1..], keep)[j].publishedAt)
  {
    var tail := posts[1..];
    var t := Filter(tail, keep);
    forall j | 0 <= j < |t| ensures DateKey(posts[0].publishedAt) > DateKey(t[j].publishedAt) {
      FilterMembership(tail, keep, t[j]);
      var m :| 0 <= m < |tail| && tail[m] == t[j];
      assert posts[m + 1] == t[j];
    }
  }

  /** Dropping posts keeps the dates decreasing. */
  lemma {:induction false} FilterKeepsNewestFirst(posts: seq<Post>, keep: Post -> bool)
    requires NewestFirst(posts)
    ensures NewestFirst(Filter(posts, keep))
    decreases |posts|
  {
    if posts != [] {
      var tail := posts[1..];
      assert NewestFirst(tail) by {
        forall i, j | 0 <= i < j < |tail|
          ensures DateKey(tail[i].publishedAt) > DateKey(tail[j].publishedAt)
        {
          assert tail[i] == posts[i + 1] && tail[j] == posts[j + 1];
        }
      }
      FilterKeepsNewestFirst(tail, keep);
      if keep(posts[0]) {
        assert Filter(posts, keep) == [posts[0]] + Filter(tail, keep);
        OlderAfterFilter(posts, keep);
        ConsNewestFirst(posts[0], Filter(tail, keep));
      }
    }
  }

  /** When dates strictly decrease along the collection, the fallback lists
      the first three other posts in collection order. */
  lemma RecentInCollectionOrder(allPosts: seq<Post>, current: Post)
    requires NewestFirst(allPosts)
    ensures Recent(allPosts, current) == Take(Candidates(allPosts, current), 3)
  {
    var c := Candidates(allPosts, current);
    FilterKeepsNewestFirst(allPosts, (p: Post) => p.id != current.id);
    var d := Dated(allPosts, current);
    assert forall i :: 0 <= i < |d| ==> d[i].item == Items(d)[i] == c[i];
    assert SortedDesc(d);
    SortDescOfSorted(d);
    TakeItems(d, 3);
  }

  /** With no other post in the collection nothing is related and the section
      is not rendered. */
  lemma NothingToRelate(allPosts: seq<Post>, current: Post)
    requires forall k :: 0 <= k < |allPosts| ==> allPosts[k].id == current.id
    ensures GetRelatedPosts(allPosts, current) == []
    ensures !RendersSection(GetRelatedPosts(allPosts, current))
  {
    assert Candidates(allPosts, current) == [] by {
      FilterNone(allPosts, (p: Post) => p.id != current.id);
    }
    assert Scored(allPosts, current) == [];
    assert Dated(allPosts, current) == [];
  }

}
