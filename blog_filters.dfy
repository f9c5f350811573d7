/**
 * The filter bar above the post grid: an "All Posts" badge, one badge per
 * category, a "Clear Filters" button and a one-line summary of the active
 * filters. Everything it shows is a function of the selected category slug
 * (`null` when none is selected), the search query and the category list.
 */
module BlogFilters {
  import opened Wrappers
  import opened JsString
  import opened Seqs
  import opened BlogTypes

  /** `selectedCategory || searchQuery`, read as a boolean: decides whether the
      "Clear Filters" button and the summary line are shown. */
  predicate HasActiveFilters(selectedCategory: Option<string>, searchQuery: string)
  {
    Truthy(selectedCategory) || searchQuery != ""
  }

  /** The "All Posts" badge is highlighted only when no category is selected. */
  predicate AllBadgeActive(selectedCategory: Option<string>)
  {
    selectedCategory == None
  }

  /** What clicking "All Posts" hands to `onCategoryChange`. */
  function AllBadgeClick(): Option<string>
  {
    None
  }

  /** A category badge is highlighted when the selection is exactly its slug. */
  predicate CategoryBadgeActive(selectedCategory: Option<string>, category: Category)
  {
    selectedCategory == Some(category.slug)
  }

  /** What clicking a category badge hands to `onCategoryChange`. */
  function CategoryBadgeClick(category: Category): Option<string>
  {
    Some(category.slug)
  }

  /** `String(n)` for an integer. */
  function IntToString(n: int): string
  {
    if n < 0 then "-" + NatToString(-n) else NatToString(n)
  }

  /** The text of a category badge: `name (count)`. */
  function BadgeLabel(category: Category): (r: string)
    ensures |r| >= |category.name| + 4
    ensures r[..|category.name| + 2] == category.name + " (" && r[|r| - 1] == ')'
  {
    category.name + " (" + IntToString(category.count) + ")"
  }

  /** The text between the parentheses of a badge label. */
  function BadgeCountText(category: Category): (r: string)
  {
    var shown := BadgeLabel(category);
    shown[|category.name| + 2..|shown| - 1]
  }

  predicate AllDigits(s: string)
  {
    forall i :: 0 <= i < |s| ==> IsDigit(s[i])
  }

  /** The parentheses of a badge hold the count: its decimal digits, after a
      minus sign when it is negative. */
  lemma BadgeLabelReadsBack(category: Category)
    ensures var t := BadgeCountText(category);
      category.count >= 0 ==> AllDigits(t) && DigitsValue(t) == category.count
    ensures var t := BadgeCountText(category);
      category.count < 0 ==> |t| >= 2 && t[0] == '-' && AllDigits(t[1..]) && DigitsValue(t[1..]) == -category.count
  {
    var name := category.name;
    var digits := IntToString(category.count);
    assert BadgeCountText(category) == digits by {
      var shown := name + " (" + digits + ")";
      assert shown[|name| + 2..|shown| - 1] == digits;
    }
    if category.count >= 0 {
      NatToStringRoundTrip(category.count);
    } else {
      NatToStringRoundTrip(-category.count);
      assert digits[1..] == NatToString(-category.count);
    }
  }

  /** Two badges for the same name tell their counts apart. */
  lemma BadgeLabelsDiffer(a: Category, b: Category)
    requires a.name == b.name && a.count != b.count
    ensures BadgeLabel(a) != BadgeLabel(b)
  {
    BadgeLabelReadsBack(a);
    BadgeLabelReadsBack(b);
  }

  /** The number of highlighted badges: "All Posts" and the category badges. */
  function ActiveBadgeCount(selectedCategory: Option<string>, categories: seq<Category>): nat
  {
    (if AllBadgeActive(selectedCategory) then 1 else 0)
      + |Filter(categories, (c: Category) => CategoryBadgeActive(selectedCategory, c))|
  }

  predicate SlugsDistinct(categories: seq<Category>)
  {
    forall i, j :: 0 <= i < j < |categories| ==> categories[i].slug != categories[j].slug
  }

  /** At most one category of a list with distinct slugs has a given slug. */
  lemma {:induction false} AtMostOneWithSlug(categories: seq<Category>, slug: string)
    requires SlugsDistinct(categories)
    ensures |Filter(categories, (c: Category) => Some(slug) == Some(c.slug))| <= 1
    ensures (exists k :: 0 <= k < |categories| && categories[k].slug == slug) ==>
      |Filter(categories, (c: Category) => Some(slug) == Some(c.slug))| == 1
    decreases |categories|
  {
    var f := (c: Category) => Some(slug) == Some(c.slug);
    if categories != [] {
      var tail := categories[1..];
      assert SlugsDistinct(tail) by {
        forall i, j | 0 <= i < j < |tail| ensures tail[i].slug != tail[j].slug {
          assert tail[i] == categories[i + 1] && tail[j] == categories[j + 1];
        }
      }
      AtMostOneWithSlug(tail, slug);
      if categories[0].slug == slug {
        forall k | 0 <= k < |tail| ensures !f(tail[k]) {
          assert tail[k] == categories[k + 1];
        }
        FilterNone(tail, f);
      } else if exists k :: 0 <= k < |categories| && categories[k].slug == slug {
        var k :| 0 <= k < |categories| && categories[k].slug == slug;
        assert tail[k - 1].slug == slug;
      }
    }
  }

  /** With distinct slugs at most one badge is ever highlighted, and exactly one
      when the selection is empty or names a listed category. */
  lemma ActiveBadges(selectedCategory: Option<string>, categories: seq<Category>)
    requires SlugsDistinct(categories)
    ensures ActiveBadgeCount(selectedCategory, categories) <= 1
    ensures selectedCategory == None ==> ActiveBadgeCount(selectedCategory, categories) == 1
    ensures (exists k :: 0 <= k < |categories| && Some(categories[k].slug) == selectedCategory) ==>
      ActiveBadgeCount(selectedCategory, categories) == 1
  {
    var f := (c: Category) => CategoryBadgeActive(selectedCategory, c);
    match selectedCategory
    case None =>
      FilterNone(categories, f);
    case Some(slug) =>
      FilterExt(categories, f, (c: Category) => Some(slug) == Some(c.slug));
      AtMostOneWithSlug(categories, slug);
  }

  /** Clicking a badge selects exactly what that badge highlights for. */
  lemma ClickHighlightsBadge(category: Category)
    ensures AllBadgeActive(AllBadgeClick())
    ensures CategoryBadgeActive(CategoryBadgeClick(category), category)
    ensures !AllBadgeActive(CategoryBadgeClick(category))
  {
  }

  /** The " • " separator stands between the two parts of the summary exactly
      when both a query and a category are present. */
  predicate ShowsSeparator(searchQuery: string, selectedCategory: Option<string>)
  {
    searchQuery != "" && Truthy(selectedCategory)
  }

  /** `categories.find(c => c.slug === selectedCategory)?.name`. */
  function SelectedCategoryName(selectedCategory: Option<string>, categories: seq<Category>): (r: Option<string>)
    ensures selectedCategory == None ==> r == None
    ensures r.Some? ==> exists k :: (0 <= k < |categories| && categories[k].name == r.value &&
      Some(categories[k].slug) == selectedCategory &&
      forall j :: 0 <= j < k ==> Some(categories[j].slug) != selectedCategory)
    ensures r.None? ==> forall k :: 0 <= k < |categories| ==> Some(categories[k].slug) != selectedCategory
  {
    match Find(categories, (c: Category) => Some(c.slug) == selectedCategory)
    case None => None
    case Some(c) => Some(c.name)
  }

  /** The name shown after "Category: ": an `undefined` name renders as nothing. */
  function CategoryText(selectedCategory: Option<string>, categories: seq<Category>): (r: string)
    ensures (forall k :: 0 <= k < |categories| ==> Some(categories[k].slug) != selectedCategory) ==> r == ""
    ensures (exists k :: 0 <= k < |categories| && Some(categories[k].slug) == selectedCategory) ==>
      exists k :: 0 <= k < |categories| && Some(categories[k].slug) == selectedCategory && categories[k].name == r
  {
    match SelectedCategoryName(selectedCategory, categories)
    case None => ""
    case Some(n) => n
  }

  /** The summary line under the badges, or `None` when it is not rendered. */
  function Summary(searchQuery: string, selectedCategory: Option<string>, categories: seq<Category>): (r: Option<string>)
    ensures r.Some? <==> HasActiveFilters(selectedCategory, searchQuery)
    ensures ShowsSeparator(searchQuery, selectedCategory) ==>
      r == Some("Searching for \"" + searchQuery + "\"" + " • " + ("Category: " + CategoryText(selectedCategory, categories)))
    ensures searchQuery != "" && !Truthy(selectedCategory) ==> r == Some("Searching for \"" + searchQuery + "\"")
    ensures searchQuery == "" && Truthy(selectedCategory) ==> r == Some("Category: " + CategoryText(selectedCategory, categories))
  {
    var searching := "Searching for \"" + searchQuery + "\"";
    var category := "Category: " + CategoryText(selectedCategory, categories);
    if !HasActiveFilters(selectedCategory, searchQuery) then None
    else if ShowsSeparator(searchQuery, selectedCategory) then Some(searching + " • " + category)
    else if searchQuery != "" then Some(searching)
    else Some(category)
  }
}
