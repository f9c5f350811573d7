# Blog front end: a Dafny model

This project models the logic of a small React blog front end. It covers:

- the landing page's case-folded search and category filter;
- the featured-post banner, the post grid and the result count;
- the "Related Articles" ranking under a post;
- the table of contents built from a post's markdown headings, and the heading slug used as each entry's id;
- the markdown-to-HTML renderer of the post body;
- the filter bar;
- the comment form and comment list, with the initials shown in place of a missing avatar;
- the newsletter sign-up box;
- the three social share links, with `encodeURIComponent` as ECMA-262 defines it (section 18.2.6.5 of the 2015 edition);
- the shipped collection of six posts and four categories.

Each modelled source file has one module: `App`, `BlogFilters`, `CommentSection`, `NewsletterSignup`, `PostRenderer` (the post body of `BlogPost.tsx`), `RelatedPosts`, `SocialShare`, `TableOfContents`, `BlogData` (`blogPosts.ts`) and `BlogTypes` (the records of `types/blog.ts`). Five library modules hold what the components share and the JavaScript built-ins they use:

- `Wrappers`: the `Option` type, standing for `null` and `undefined`;
- `JsString`: `toLowerCase`, `trim`, `includes`, `indexOf`, `split`, `join` and `String(n)`;
- `Seqs`: `filter`, `find`, a stable sort and `slice`;
- `HeadingSlug`: the slug expression shared by the table of contents and the renderer;
- `UriComponent`: `encodeURIComponent` and its inverse.

Three fixture modules prove facts about the shipped data:

- `AppFixture`: the landing page over the shipped posts;
- `RelatedFixture`: the related posts of the shipped posts;
- `RendererFixture`: the first shipped post's rendered headings against its table of contents.

Most of the code computes values, so it is modelled as datatypes and functions. Four kinds of code keep their imperative form:

- The React state of the landing page, the table of contents, the comment form and the newsletter box are classes. Their fields are the `useState` variables and their methods are the handlers.
- A submit handler that waits on a timer is two methods. One covers the work before the wait and one the work after it.
- The table of contents' `while (regex.exec(...))` loop is a method with a loop. It is proved equal to the recursive definition its properties are stated on.
- The shipped data are constants. Lemmas establish, on the actual literals, the facts the pages rely on:
  - the "react" search;
  - the recency order;
  - the related posts of two of the posts;
  - the table-of-contents and renderer behaviour on the first post.

The lemmas about that first post also document three quirks of the program as written:

- The first block of every post starts with a line break, so its title line is rendered as a paragraph, not a heading.
- A heading written directly above a list shares its block with the list. The renderer's id for it therefore differs from the id the table of contents links to.
- The comment header counts top-level comments only, so the shipped thread shows three comments under "Comments (2)".

## Model

| member | source | states |
|---|---|---|
| `App.TextHit` | src/App.tsx:30-32 | the lower-cased query occurs in the lower-cased title, in the lower-cased excerpt or in some lower-cased tag; ShortCutIsRedundant and QueryIsNotTrimmed state its properties |
| `App.MatchesSearch` | src/App.tsx:29-32 | the empty query matches every post, any other query is the text test (ShortCutIsRedundant: the short cut agrees with the text test; QueryIsNotTrimmed: white space in the query is kept) |
| `App.MatchesCategory` | src/App.tsx:34-35 | no selection matches every post, otherwise the lower-cased category must equal the selection as given (SelectionIsNotFolded) |
| `App.Matches` | src/App.tsx:37 | a post is listed when both tests pass (FilterIsConjunction: filtering by one test and then the other gives the same list) |
| `App.FilterPosts` | src/App.tsx:27-39 | the filtered posts are a subsequence of the collection, and a post is in it iff it is in the collection and matches both the search and the category test |
| `App.ShortCutIsRedundant` | src/App.tsx:29-32 | the empty-query short cut agrees with the substring test, since the empty string is contained in every title |
| `App.NoFiltersListEverything` | src/App.tsx:28-38 | with an empty query and no category every post is listed, in collection order |
| `App.CategoryNarrows` | src/App.tsx:34-37 | for the same query, selecting a category yields a subsequence of the unselected result |
| `App.FilterIsConjunction` | src/App.tsx:37 | filtering by the search test and then by the category test gives exactly the combined filter |
| `App.QueryIsNotTrimmed` | src/App.tsx:29-32 | upper case in the query is folded ("REACT" finds "React"), but white space is not trimmed ("react " misses it) |
| `App.SelectionIsNotFolded` | src/App.tsx:34-35 | the post's category is lower-cased and the selection is not: "design" selects a "Design" post and "Design" does not |
| `App.FeaturedPost` | src/App.tsx:41 | the result is the first featured post of the whole collection, or none when no post is featured |
| `App.RegularPosts` | src/App.tsx:42 | the grid is the filtered posts minus the featured ones, order kept, and never holds a featured post |
| `App.CountIncludesFeatured` | src/App.tsx:117 | the count shown equals the grid's size plus the number of featured matches the grid drops |
| `App.ShowFeaturedBanner` | src/App.tsx:102 | the banner condition; App.AppState.Render states that the banner appears exactly when it holds, and BannerMeansUnfiltered that the list under it is then unfiltered |
| `App.BannerMeansUnfiltered` | src/App.tsx:102 | whenever the banner is shown (and the selection is not the falsy empty slug) the filtered list is the whole collection |
| `App.SectionTitle` | src/App.tsx:113-115 | the heading reads "Latest Posts" iff no filter is active, "Search Results" otherwise |
| `App.CountLabel` | src/App.tsx:116-118 | the label is the number followed by " post", with an "s" exactly when the number is not 1 |
| `App.CountLabelReadsBack` | src/App.tsx:117 | the label's leading digits read back as the count |
| `App.AppState.constructor` | src/App.tsx:12-15 | the page starts in light mode with no post open, an empty query and no category |
| `App.AppState.Render` | src/App.tsx:63-133 | an open post replaces the landing page by its detail view; otherwise the banner shows the featured post exactly when one exists, the query is empty and the selection is falsy, the heading is the section title of the filters, the count is that of all filtered posts and the grid is the filtered posts that are not featured |
| `App.AppState.PostClick` | src/App.tsx:44-47 | opening a post shows its detail view and keeps the query, the category and the colour mode |
| `App.AppState.BackToBlog` | src/App.tsx:49-52 | going back shows the landing page with the query and the category kept |
| `App.AppState.Search` | src/App.tsx:54-56 | the query is stored as typed, nothing else changes |
| `App.AppState.ChangeCategory` | src/App.tsx:121-123 | the filter bar's callback stores the selection as given, nothing else changes |
| `App.AppState.ClearFilters` | src/App.tsx:58-61 | the query becomes empty, the selection null, and then every post is listed |
| `App.AppState.ToggleDarkMode` | src/App.tsx:84 | the toggle flips the colour mode and changes nothing else |
| `AppFixture.Post2Hits` | src/data/blogPosts.ts:44-87 | the second post matches "react" through its "React" tag |
| `AppFixture.Post1Misses` | src/data/blogPosts.ts:4-43 | the first post's title, excerpt and tags do not contain "react" |
| `AppFixture.Post3Misses` | src/data/blogPosts.ts:88-137 | the third post does not match "react" |
| `AppFixture.Post4Misses` | src/data/blogPosts.ts:138-180 | the fourth post does not match "react" |
| `AppFixture.Post5Misses` | src/data/blogPosts.ts:181-224 | the fifth post does not match "react" |
| `AppFixture.Post6Misses` | src/data/blogPosts.ts:225-268 | the sixth post does not match "react", although its title holds every letter of the word |
| `AppFixture.ReactSearch` | src/App.tsx:27-42 | on the shipped posts "react" leaves only post 2; it is featured, so the grid is empty while the count reads "1 post" under "Search Results" |
| `AppFixture.FeaturedIsFirstPost` | src/App.tsx:41 | on the shipped posts the featured post is post 1 and the banner shows on the unfiltered page |
| `BlogData.IdsDistinct` | src/data/blogPosts.ts:3-269 | the six post ids are pairwise distinct |
| `BlogData.SlugsDistinct` | src/data/blogPosts.ts:3-269 | the six post slugs are pairwise distinct |
| `BlogData.ReadingTimesPositive` | src/data/blogPosts.ts:3-269 | every reading time is positive |
| `BlogData.FeaturedAreFirstTwo` | src/data/blogPosts.ts:3-269 | exactly the first two posts are featured |
| `BlogData.CategorySlugsAreLowerNames` | src/data/blogPosts.ts:271-276 | every category slug is its lower-cased name |
| `BlogData.PostCategoriesHaveSlugs` | src/data/blogPosts.ts:271-276 | every post's lower-cased category is the slug of some category, so every post can be selected from the filter bar |
| `BlogData.CategoryCountsMatch` | src/data/blogPosts.ts:271-276 | each category's stored count equals the number of posts in that category |
| `BlogFilters.HasActiveFilters` | src/components/blog/BlogFilters.tsx:18 | a filter is active when the selection is truthy or the query is non-empty; Summary states that the summary line appears exactly then |
| `BlogFilters.AllBadgeActive` | src/components/blog/BlogFilters.tsx:33 | the "All Posts" badge is highlighted for a null selection only; ActiveBadges and ClickHighlightsBadge state its properties |
| `BlogFilters.AllBadgeClick` | src/components/blog/BlogFilters.tsx:35 | clicking "All Posts" passes null (ClickHighlightsBadge: the badge is then the highlighted one) |
| `BlogFilters.CategoryBadgeActive` | src/components/blog/BlogFilters.tsx:43 | a category badge is highlighted when the selection equals its slug; ActiveBadges states that at most one is |
| `BlogFilters.CategoryBadgeClick` | src/components/blog/BlogFilters.tsx:45 | clicking a category badge passes its slug (ClickHighlightsBadge: that badge is then highlighted) |
| `BlogFilters.BadgeLabel` | src/components/blog/BlogFilters.tsx:47 | a category badge starts with its name and " (" and ends with ")", with at least one character between |
| `BlogFilters.BadgeLabelReadsBack` | src/components/blog/BlogFilters.tsx:47 | the text in the parentheses is the count's decimal digits, after a "-" when it is negative, and reads back as the count |
| `BlogFilters.BadgeLabelsDiffer` | src/components/blog/BlogFilters.tsx:47 | two badges with the same name and different counts read differently |
| `BlogFilters.ActiveBadges` | src/components/blog/BlogFilters.tsx:32-49 | with distinct slugs at most one badge is highlighted; exactly one when nothing is selected or the selection names a listed category |
| `BlogFilters.AtMostOneWithSlug` | src/components/blog/BlogFilters.tsx:43 | in a list with distinct slugs at most one category has a given slug, and exactly one when some has it |
| `BlogFilters.ClickHighlightsBadge` | src/components/blog/BlogFilters.tsx:33-45 | clicking "All Posts" selects null, which highlights it; clicking a category selects its slug, which highlights that badge and not "All Posts" |
| `BlogFilters.SelectedCategoryName` | src/components/blog/BlogFilters.tsx:59 | the name shown is that of the first category whose slug equals the selection, and none when no category has it |
| `BlogFilters.CategoryText` | src/components/blog/BlogFilters.tsx:59 | the text after "Category: " is "" when no category has the selected slug, and otherwise the name of a category that has it (`undefined` renders as nothing); Summary places it in the line |
| `BlogFilters.ShowsSeparator` | src/components/blog/BlogFilters.tsx:57 | the separator condition: a non-empty query and a truthy selection; Summary states that " • " joins the two parts exactly then |
| `BlogFilters.Summary` | src/components/blog/BlogFilters.tsx:52-62 | the summary appears iff a filter is active; it holds the query part, the category part, or both joined by " • " exactly when both are present |
| `CommentSection.GetInitials` | src/components/blog/CommentSection.tsx:94-96 | the initials are the upper-cased first characters of the non-empty space-separated segments, in order, never more than the segments |
| `CommentSection.ViewOf` | src/components/blog/CommentSection.tsx:98-139 | one comment item: a reply is indented and has no Reply button, a top-level comment is flush and has one; it shows the comment's id, author name and likes, and one initial per non-empty name segment; Thread assembles the items |
| `CommentSection.JoinedInitials` | src/components/blog/CommentSection.tsx:95 | joining the first characters of all segments equals taking those of the non-empty segments, since an empty segment's `undefined` joins as nothing |
| `CommentSection.InitialsAppend` | src/components/blog/CommentSection.tsx:95 | the initials of two parts joined by a space are the initials of each part, concatenated |
| `CommentSection.WordInitial` | src/components/blog/CommentSection.tsx:95 | a single word yields its upper-cased first letter |
| `CommentSection.TwoWordInitials` | src/components/blog/CommentSection.tsx:95 | a two-word name yields the two upper-cased first letters |
| `CommentSection.SurroundingSpacesIgnored` | src/components/blog/CommentSection.tsx:95 | a leading or trailing space does not change the initials |
| `CommentSection.FirstAuthorInitials` | src/components/blog/CommentSection.tsx:26 | "Sarah Johnson" yields "SJ" |
| `CommentSection.ReplyAuthorInitials` | src/components/blog/CommentSection.tsx:37 | "Mike Chen" yields "MC" |
| `CommentSection.SecondAuthorInitials` | src/components/blog/CommentSection.tsx:50 | "Alex Rivera" yields "AR" |
| `CommentSection.Thread` | src/components/blog/CommentSection.tsx:98-139 | the rendered thread has one item per comment and reply, at least one per top-level comment; every reply is indented and has no Reply button |
| `CommentSection.ReplyButtonsCountTopLevel` | src/components/blog/CommentSection.tsx:123-128 | the thread shows exactly one Reply button per top-level comment |
| `CommentSection.HeaderText` | src/components/blog/CommentSection.tsx:147 | the header reads "Comments (", then digits that read back as the number of top-level comments, then ")" |
| `CommentSection.CommentForm.Header` | src/components/blog/CommentSection.tsx:147 | the form's heading reads "Comments (", then digits that read back as the number of top-level comments it holds, then ")" |
| `CommentSection.HeaderCountsTopLevel` | src/components/blog/CommentSection.tsx:147 | the header's count equals the number of comments shown iff no top-level comment has replies |
| `CommentSection.MockShape` | src/components/blog/CommentSection.tsx:22-57 | the shipped comments are two top-level comments; the first has one reply without replies, the second none |
| `CommentSection.MockThreadShowsThree` | src/components/blog/CommentSection.tsx:131-135 | the shipped thread renders three comments |
| `CommentSection.TwoTopLevel` | src/components/blog/CommentSection.tsx:147 | any two top-level comments are headed "Comments (2)" and get two Reply buttons |
| `CommentSection.MockHeaderMissesReply` | src/components/blog/CommentSection.tsx:147 | the shipped comments are headed "Comments (2)" with two Reply buttons, while three comments are shown |
| `CommentSection.Filled` | src/components/blog/CommentSection.tsx:68 | the submit guard; FilledIffNoneBlank states that it holds iff each field has a character other than white space |
| `CommentSection.FilledIffNoneBlank` | src/components/blog/CommentSection.tsx:68 | the submit guard passes iff the comment, the name and the email each hold a non-white-space character |
| `CommentSection.CommentForm.constructor` | src/components/blog/CommentSection.tsx:60-64 | the form starts empty and idle, and the comments are the fixed list |
| `CommentSection.CommentForm.SetNewComment` | src/components/blog/CommentSection.tsx:174 | the comment field takes the typed value, nothing else changes |
| `CommentSection.CommentForm.SetAuthorName` | src/components/blog/CommentSection.tsx:160 | the name field takes the typed value, nothing else changes |
| `CommentSection.CommentForm.SetAuthorEmail` | src/components/blog/CommentSection.tsx:167 | the email field takes the typed value, nothing else changes |
| `CommentSection.CommentForm.BeginSubmit` | src/components/blog/CommentSection.tsx:66-76 | a blank field makes the submit a no-op; otherwise the form is submitting, its button disabled and reading "Posting...", and the submission carries the post id and the three fields as typed |
| `CommentSection.CommentForm.CompleteSubmit` | src/components/blog/CommentSection.tsx:78-81 | after the wait all three fields are empty and the form is idle with its button enabled and reading "Post Comment", so the guard would refuse an immediate resubmit |
| `CommentSection.CommentForm.SubmitButton` | src/components/blog/CommentSection.tsx:179-181 | the submit button is enabled iff no comment is being posted, and reads "Posting..." exactly while one is, "Post Comment" otherwise; BeginSubmit and CompleteSubmit state the button after each step |
| `HeadingSlug.Collapse` | src/components/blog/TableOfContents.tsx:23 | replacing every run of characters outside [a-z0-9] with one "-" gives text in that alphabet with no "--", empty iff the input is, starting with the input's first character or with "-" |
| `HeadingSlug.SkipRun` | src/components/blog/TableOfContents.tsx:23 | the run dropped is the longest prefix outside [a-z0-9] |
| `HeadingSlug.StripMakesSlug` | src/components/blog/TableOfContents.tsx:23 | removing a leading and a trailing "-" from collapsed text gives a slug |
| `HeadingSlug.StripDashes` | src/components/blog/TableOfContents.tsx:23 | at most one character goes from each end, and text that neither starts nor ends with "-" is unchanged |
| `HeadingSlug.Slug` | src/components/blog/TableOfContents.tsx:23 | every id holds only [a-z0-9-], has no "--" and neither starts nor ends with "-" |
| `HeadingSlug.SkipRunKeepsLettersAndDigits` | src/components/blog/TableOfContents.tsx:23 | skipping a run outside [a-z0-9] drops no letter or digit |
| `HeadingSlug.CollapseKeepsLettersAndDigits` | src/components/blog/TableOfContents.tsx:23 | the replacement keeps every lower-case letter and digit, in order |
| `HeadingSlug.StripKeepsLettersAndDigits` | src/components/blog/TableOfContents.tsx:23 | stripping the edge dashes keeps every letter and digit |
| `HeadingSlug.SlugKeepsLettersAndDigits` | src/components/blog/TableOfContents.tsx:23 | the id's letters and digits are exactly those of the lower-cased text, in order |
| `HeadingSlug.CollapseOfCollapsed` | src/components/blog/TableOfContents.tsx:23 | the replacement leaves text already in the slug alphabet without "--" unchanged |
| `HeadingSlug.SlugFixpointIff` | src/components/blog/TableOfContents.tsx:23 | a string is its own id iff it is a slug |
| `HeadingSlug.SlugIdempotent` | src/components/blog/TableOfContents.tsx:23 | slugging an id again changes nothing |
| `JsString.LowerIdempotent` | src/App.tsx:30-32 | lower-casing twice is lower-casing once |
| `JsString.TrimStartShape` | src/components/blog/TableOfContents.tsx:22 | trimming the start drops exactly the leading white space |
| `JsString.TrimEndShape` | src/components/blog/TableOfContents.tsx:22 | trimming the end drops exactly the trailing white space |
| `JsString.TrimEmptyIffBlank` | src/components/blog/CommentSection.tsx:68 | a trimmed string is empty iff it holds only white space and line terminators |
| `JsString.IndexOf` | src/App.tsx:30-32 | the result is the first position at or after the start where the needle occurs, or none when it occurs nowhere there |
| `JsString.IncludesIffIndexOf` | src/App.tsx:30 | a string includes a needle iff the needle has a first occurrence |
| `JsString.SplitJoin` | src/components/blog/BlogPost.tsx:37-60 | joining the pieces of a split with the separator gives back the string |
| `JsString.SplitPartsExcludeSep` | src/components/blog/BlogPost.tsx:37 | no piece of a split contains the separator |
| `JsString.SplitAppend` | src/components/blog/BlogPost.tsx:37 | splitting two texts joined by the separator gives the pieces of each, when no occurrence straddles the join |
| `JsString.SplitNone` | src/components/blog/BlogPost.tsx:37 | a string without the separator splits into itself alone |
| `JsString.NatToString` | src/App.tsx:117 | a number is written with decimal digits only, with a leading zero only for zero |
| `JsString.NatToStringRoundTrip` | src/App.tsx:117 | the written digits read back as the number |
| `NewsletterSignup.Accepts` | src/components/blog/NewsletterSignup.tsx:14 | the submit guard; AcceptsIffNotBlank states that it holds iff the email has a character other than white space |
| `NewsletterSignup.AcceptsIffNotBlank` | src/components/blog/NewsletterSignup.tsx:14 | an email is accepted iff it holds something other than white space |
| `NewsletterSignup.Signup.constructor` | src/components/blog/NewsletterSignup.tsx:8-10 | the box starts with an empty email, idle and not subscribed |
| `NewsletterSignup.Signup.SetEmail` | src/components/blog/NewsletterSignup.tsx:66 | the email field takes the typed value, nothing else changes |
| `NewsletterSignup.Signup.BeginSubmit` | src/components/blog/NewsletterSignup.tsx:12-16 | a blank email changes nothing; otherwise the box is submitting; the email and the subscription are untouched |
| `NewsletterSignup.Signup.CompleteSubmit` | src/components/blog/NewsletterSignup.tsx:24-26 | after the wait the reader is subscribed, the email is empty, the box idle, and the thank-you panel shows |
| `NewsletterSignup.Signup.Render` | src/components/blog/NewsletterSignup.tsx:34-77 | the thank-you panel shows iff subscribed, with no field or button left; otherwise the form shows the email as typed and a button enabled iff not submitting, reading "Subscribing..." exactly while submitting and "Subscribe" otherwise |
| `PostRenderer.Hashes` | src/components/blog/TableOfContents.tsx:16 | the heading prefix of a level is that many "#" |
| `PostRenderer.HeadingLevel` | src/components/blog/BlogPost.tsx:41 | the level is at least 1, and is the length of the leading "#" run whenever there is one |
| `PostRenderer.HeadingText` | src/components/blog/BlogPost.tsx:42 | the text is never longer than the block, and strictly shorter when the block starts with "#" |
| `PostRenderer.SizeClass` | src/components/blog/BlogPost.tsx:45-52 | a size class exists exactly for levels 1 to 6 |
| `PostRenderer.HeadingHtml` | src/components/blog/BlogPost.tsx:45-54 | the heading template; Fragment states which level, id and text it gets, and DeepHeadingHasUndefinedClass what it writes past level 6 |
| `PostRenderer.Fragment` | src/components/blog/BlogPost.tsx:38-59 | a block starting with "#" becomes a heading of its "#" count with the slug of its text as id; any other block is wrapped verbatim in a paragraph |
| `PostRenderer.Fragments` | src/components/blog/BlogPost.tsx:38 | one fragment per block, in order |
| `PostRenderer.HeadingLevelIsHashRun` | src/components/blog/BlogPost.tsx:41 | the level is the length of the leading "#" run, at least 1, so the `|| 1` fallback never applies |
| `PostRenderer.HeadingTextShape` | src/components/blog/BlogPost.tsx:42 | the heading text is the block after its "#" run and the white space after it, later lines included |
| `PostRenderer.DeepHeadingHasUndefinedClass` | src/components/blog/BlogPost.tsx:45-54 | a block with more than six "#" renders with the class "undefined" |
| `PostRenderer.SplitJoinedBlocks` | src/components/blog/BlogPost.tsx:37 | a non-empty list of blocks, none holding a blank line and none but the last ending in a line break, joined by blank lines, splits back into the same blocks |
| `PostRenderer.ProcessContent` | src/components/blog/BlogPost.tsx:35-61 | split at blank lines, one fragment per block, joined; RenderJoinedBlocks and ProcessContentCons state what it renders |
| `PostRenderer.JoinFragments` | src/components/blog/BlogPost.tsx:38-60 | concatenating the fragments renders the blocks in order |
| `PostRenderer.RenderJoinedBlocks` | src/components/blog/BlogPost.tsx:35-61 | content made of a non-empty list of blocks, none holding a blank line and none but the last ending in a line break, joined by blank lines, renders as the concatenation of one fragment per block |
| `PostRenderer.ProcessContentCons` | src/components/blog/BlogPost.tsx:35-61 | content whose first block is `a` renders as `a`'s fragment followed by the rendering of the rest |
| `PostRenderer.LeadingNewlineMakesParagraph` | src/components/blog/BlogPost.tsx:40 | content starting with a single line break has a first block that starts with it and renders as a paragraph |
| `PostRenderer.TocMatchOfLine` | src/components/blog/TableOfContents.tsx:16 | a heading line of level 1 to 3 is matched at its start with its level and its text |
| `PostRenderer.RenderedHeadingOfLine` | src/components/blog/BlogPost.tsx:40-42 | the renderer reads the same line as a heading of the same level whose text runs to the end of the block |
| `PostRenderer.LoneHeadingIdsAgree` | src/components/blog/BlogPost.tsx:43 | for a block holding only a heading line of level 1 to 3 whose text is non-empty, has no line break and no white space at either end, the table of contents entry and the rendered heading have the same id, text and level |
| `PostRenderer.SlugGrowsWithLetters` | src/components/blog/TableOfContents.tsx:23 | appending text holding a letter or digit changes the slug |
| `PostRenderer.FollowedHeadingIdsDisagree` | src/components/blog/BlogPost.tsx:42-43 | when such a heading line (level 1 to 3, text without white space at either end) is followed by more lines in its block and those lines hold a letter or digit, the rendered id takes them in and differs from the table of contents id |
| `RendererFixture.KeyBenefitsIsOneBlock` | src/data/blogPosts.ts:17-21 | the "Key Benefits" heading and its list form a single block of post 1 |
| `RendererFixture.KeyBenefitsIdsDisagree` | src/data/blogPosts.ts:17-21 | the table of contents links that heading as "key-benefits", while the renderer gives it an id that also takes in the list |
| `RendererFixture.TitleLineIsParagraph` | src/data/blogPosts.ts:8-9 | post 1 opens with a line break, so its title line is rendered inside a paragraph, not as a heading |
| `RelatedFixture.ShippedNewestFirst` | src/data/blogPosts.ts:3-269 | the publication dates strictly decrease along the collection |
| `RelatedFixture.ShippedRecentInCollectionOrder` | src/components/blog/RelatedPosts.tsx:39-44 | on the shipped posts the recency fallback is the first three other posts in collection order |
| `RelatedFixture.ShippedRelatedToFirst` | src/components/blog/RelatedPosts.tsx:11-47 | no other post scores against post 1, so its related posts are posts 2, 3 and 4 from the fallback |
| `RelatedFixture.ShippedRelatedToFifth` | src/components/blog/RelatedPosts.tsx:11-47 | post 5's related posts are post 3 (same category) and then post 4 (shared tag) |
| `RelatedFixture.RelatedToFirst` | src/components/blog/RelatedPosts.tsx:11-47 | for any collection like the shipped one the first post's related posts are the next three |
| `RelatedFixture.RelatedToFifth` | src/components/blog/RelatedPosts.tsx:11-47 | for any collection like the shipped one the fifth post's related posts are the third and the fourth |
| `RelatedFixture.DateKeys` | src/data/blogPosts.ts:3-269 | the shipped dates have the keys 20240115 down to 20240103 |
| `RelatedPosts.SharedTags` | src/components/blog/RelatedPosts.tsx:22-24 | the shared-tag count never exceeds the candidate's number of tags |
| `RelatedPosts.Score` | src/components/blog/RelatedPosts.tsx:15-31 | the score is at most 3 plus the candidate's tag count, and at least 2 for the same category |
| `RelatedPosts.Candidates` | src/components/blog/RelatedPosts.tsx:13 | no candidate carries the current post's id, and there are no more candidates than posts |
| `RelatedPosts.Positive` | src/components/blog/RelatedPosts.tsx:33 | every entry left by the score filter has a positive score, and there are no more of them than candidates |
| `RelatedPosts.Ranked` | src/components/blog/RelatedPosts.tsx:33-36 | the scored branch holds at most three posts |
| `RelatedPosts.Recent` | src/components/blog/RelatedPosts.tsx:40-43 | the fallback holds three posts, or every candidate when there are fewer than three |
| `RelatedPosts.DaysInMonth` | src/components/blog/RelatedPosts.tsx:42 | a month has 28 to 31 days, and 29 exactly for February of a leap year |
| `RelatedPosts.HasDateShape` | src/components/blog/RelatedPosts.tsx:42 | the `YYYY-MM-DD` digit layout; DateKey gives key 0 to every string without it |
| `RelatedPosts.IsLeapYear` | src/components/blog/RelatedPosts.tsx:42 | the proleptic Gregorian leap-year rule; DaysInMonth gives February 29 days exactly in such years |
| `RelatedPosts.IsDateString` | src/components/blog/RelatedPosts.tsx:42 | a string naming a calendar day in `YYYY-MM-DD` form; DateKey states that exactly these get a positive key, and CalendarRanges checks the month and day bounds on sample strings |
| `RelatedPosts.DateKey` | src/components/blog/RelatedPosts.tsx:42 | the key is never negative, and it is 0 exactly for a string that names no calendar day in `YYYY-MM-DD` form |
| `RelatedPosts.CalendarRanges` | src/components/blog/RelatedPosts.tsx:42 | month 13, month 0, 31 February and 29 February 2023 get key 0, while 29 February 2024 is a date |
| `RelatedPosts.ScorePositiveIff` | src/components/blog/RelatedPosts.tsx:15-29 | a candidate scores above zero iff it shares the category, the author name or a tag; the score is at most 3 plus its tag count |
| `RelatedPosts.CandidatesAreOthers` | src/components/blog/RelatedPosts.tsx:13 | the candidates are the posts whose id differs from the current post's, in order |
| `RelatedPosts.Scored` | src/components/blog/RelatedPosts.tsx:14-32 | every candidate is paired with its score, in order |
| `RelatedPosts.Dated` | src/components/blog/RelatedPosts.tsx:41-42 | every candidate is paired with its date key, in order |
| `RelatedPosts.DateKeyOrder` | src/components/blog/RelatedPosts.tsx:42 | for two calendar dates the key orders by year, then month, then day, as the timestamps do |
| `RelatedPosts.GetRelatedPosts` | src/components/blog/RelatedPosts.tsx:11-47 | at most three posts: the ranked ones when some candidate scores above zero, the three most recent candidates otherwise |
| `RelatedPosts.RelatedAreOtherPosts` | src/components/blog/RelatedPosts.tsx:13 | every related post is in the collection and is not the current post |
| `RelatedPosts.FallbackIffNoPositiveScore` | src/components/blog/RelatedPosts.tsx:39 | the fallback is taken iff no other post scores above zero |
| `RelatedPosts.PositiveEmptyIff` | src/components/blog/RelatedPosts.tsx:33 | no candidate survives the score filter iff every other post scores zero |
| `RelatedPosts.PositiveKeys` | src/components/blog/RelatedPosts.tsx:33 | every surviving candidate has a positive key equal to its score |
| `RelatedPosts.RankedIsSortedPrefix` | src/components/blog/RelatedPosts.tsx:33-36 | the ranked posts are the first min(3, k) of a score-descending permutation of the k positive candidates, each scoring above zero, in non-increasing score order |
| `RelatedPosts.RankedIsStable` | src/components/blog/RelatedPosts.tsx:34 | posts with equal scores keep their collection order |
| `RelatedPosts.RecentIsNewestFirst` | src/components/blog/RelatedPosts.tsx:42-43 | the fallback takes a prefix of the candidates sorted newest first, equal dates in collection order |
| `RelatedPosts.FilterKeepsNewestFirst` | src/components/blog/RelatedPosts.tsx:41 | removing posts from a newest-first list keeps it newest first |
| `RelatedPosts.RecentInCollectionOrder` | src/components/blog/RelatedPosts.tsx:39-44 | on a newest-first collection the fallback is the first three other posts |
| `RelatedPosts.RendersSection` | src/components/blog/RelatedPosts.tsx:51 | the section is rendered for a non-empty list only; NothingToRelate states when the list is empty |
| `RelatedPosts.NothingToRelate` | src/components/blog/RelatedPosts.tsx:51 | a collection empty or holding only the current post gives no related posts, and the section is not rendered |
| `Seqs.FilterMembership` | src/App.tsx:28 | an element is kept iff it is in the list and passes the test |
| `Seqs.FilterIsSubsequence` | src/App.tsx:28 | a filter keeps the list's order |
| `Seqs.Find` | src/App.tsx:41 | the result is the first element passing the test, or none when none passes |
| `Seqs.FindIsFirstOfFilter` | src/App.tsx:41 | the first element passing a test is the head of the filtered list |
| `Seqs.SortDescSortedPermutation` | src/components/blog/RelatedPosts.tsx:34 | the sort returns a permutation of its input in non-increasing key order |
| `Seqs.SortDescStable` | src/components/blog/RelatedPosts.tsx:34 | elements with equal keys keep their relative order, as a stable sort keeps them |
| `Seqs.SortDescOfSorted` | src/components/blog/RelatedPosts.tsx:42 | sorting a list already in non-increasing key order returns it unchanged |
| `Seqs.Take` | src/components/blog/RelatedPosts.tsx:35 | `slice(0, n)` gives the first min(n, length) elements, in order |
| `SocialShare.DescriptionOrEmpty` | src/components/blog/SocialShare.tsx:20 | a missing or empty description is sent as the empty string |
| `SocialShare.Param` | src/components/blog/SocialShare.tsx:23-25 | one `name=value` pair with the value encoded; SplitOneParam states that it splits back into the name and the encoded value |
| `SocialShare.TwitterLink` | src/components/blog/SocialShare.tsx:23 | the Twitter link; TwitterParams and DecodeTwo state its query |
| `SocialShare.FacebookLink` | src/components/blog/SocialShare.tsx:24 | the Facebook link; FacebookParams and FacebookDistinguishesUrls state its query |
| `SocialShare.LinkedInLink` | src/components/blog/SocialShare.tsx:25 | the LinkedIn link; LinkedInParams and DecodeThree state its query |
| `SocialShare.Links` | src/components/blog/SocialShare.tsx:22-26 | the Twitter query is `text` and `url`, the Facebook query is `u` alone, and the LinkedIn query is `url`, `title` and `summary`, each carrying its encoded value (the description as the summary, or "" when it is missing or empty); each link starts with its endpoint followed by "?" |
| `SocialShare.TwitterParams` | src/components/blog/SocialShare.tsx:23 | the Twitter link's query holds exactly `text` then `url`, carrying the encoded title and address |
| `SocialShare.DecodeTwo` | src/components/blog/SocialShare.tsx:23 | decoding the Twitter link's two values gives the title and the address back |
| `SocialShare.FacebookParams` | src/components/blog/SocialShare.tsx:24 | the Facebook link's query holds the encoded address alone |
| `SocialShare.FacebookIgnoresTitle` | src/components/blog/SocialShare.tsx:24 | the Facebook link depends on the address only |
| `SocialShare.FacebookDistinguishesUrls` | src/components/blog/SocialShare.tsx:24 | different addresses give different Facebook links |
| `SocialShare.LinkedInParams` | src/components/blog/SocialShare.tsx:25 | the LinkedIn link's query holds `url`, `title` and `summary`, in that order, with the encoded values |
| `SocialShare.DecodeThree` | src/components/blog/SocialShare.tsx:25 | decoding the LinkedIn link's values gives the address, the title and the summary back |
| `SocialShare.MissingDescriptionIsEmpty` | src/components/blog/SocialShare.tsx:20-25 | no description and an empty one give the same links |
| `SocialShare.DecodeEncodedValues` | src/components/blog/SocialShare.tsx:18-20 | a parameter list whose values are encodings decodes back to the encoded strings |
| `TableOfContents.HeadingAt` | src/components/blog/TableOfContents.tsx:16 | a match at a position starts there and ends after it, within the content |
| `TableOfContents.MatchShape` | src/components/blog/TableOfContents.tsx:16 | a match starts a line with one to three "#" and white space, ends at a line end, and captures a non-empty text without line terminators |
| `TableOfContents.MatchExistsIff` | src/components/blog/TableOfContents.tsx:16 | the pattern matches at a position iff it starts a line with one to three "#", then white space, then some character other than a line terminator |
| `TableOfContents.FourHashesNoEntry` | src/components/blog/TableOfContents.tsx:16 | a line with four or more "#" yields no entry |
| `TableOfContents.NextMatch` | src/components/blog/TableOfContents.tsx:20 | `exec` finds the first position at or after `lastIndex` where the pattern matches, or reports none |
| `TableOfContents.MatchesFrom` | src/components/blog/TableOfContents.tsx:20-26 | the loop's matches are genuine matches, in content order, without overlap |
| `TableOfContents.NoMatchSkipped` | src/components/blog/TableOfContents.tsx:20-26 | every position where the pattern matches lies inside one of the loop's matches |
| `TableOfContents.ToItem` | src/components/blog/TableOfContents.tsx:21-25 | an entry keeps the match's level, and its id is a slug and the slug of its text |
| `TableOfContents.Entries` | src/components/blog/TableOfContents.tsx:21-25 | one entry per match, in order |
| `TableOfContents.HeadingsFrom` | src/components/blog/TableOfContents.tsx:20-26 | every entry found from a position on has a level from 1 to 3 and a slug as id |
| `TableOfContents.Headings` | src/components/blog/TableOfContents.tsx:20-26 | every entry of the content has a level from 1 to 3 and a slug as id |
| `TableOfContents.HeadingsAreEntries` | src/components/blog/TableOfContents.tsx:20-26 | the headings are the entries of the successive matches |
| `TableOfContents.EntriesComeFromMatches` | src/components/blog/TableOfContents.tsx:21-25 | each entry's level is its "#" count, from 1 to 3; its text is the trimmed capture; its id is the slug of that text |
| `TableOfContents.ExtractHeadings` | src/components/blog/TableOfContents.tsx:14-29 | the `exec` loop pushes exactly the headings of the content |
| `TableOfContents.TableOfContentsState.constructor` | src/components/blog/TableOfContents.tsx:11-12 | the table starts empty with no active id |
| `TableOfContents.TableOfContentsState.LoadContent` | src/components/blog/TableOfContents.tsx:14-29 | loading content sets the table to its headings and keeps the active id |
| `TableOfContents.TableOfContentsState.SetActive` | src/components/blog/TableOfContents.tsx:36 | the active id changes and the table does not |
| `TableOfContents.TableOfContentsState.Render` | src/components/blog/TableOfContents.tsx:51-87 | nothing is rendered iff the table is empty; otherwise every entry is listed |
| `UriComponent.HexValueOfDigit` | src/components/blog/SocialShare.tsx:18-20 | every hexadecimal digit written by the encoder reads back as its value |
| `UriComponent.Utf8Two` | src/components/blog/SocialShare.tsx:18-20 | a code point below 0x800 and at least 0x80 is written as a lead byte and a continuation byte that together hold it |
| `UriComponent.Utf8Three` | src/components/blog/SocialShare.tsx:18-20 | a code point in the basic plane from 0x800 is written as three bytes that together hold it |
| `UriComponent.Utf8Four` | src/components/blog/SocialShare.tsx:18-20 | a supplementary code point is written as four bytes that together hold it |
| `UriComponent.Encode` | src/components/blog/SocialShare.tsx:18-20 | the encoding is never shorter than the text; DecodeEncode states that Decode undoes it |
| `UriComponent.Decode` | src/components/blog/SocialShare.tsx:18-20 | decoding never lengthens the text, and text without "%" decodes to itself |
| `UriComponent.EncodedAlphabet` | src/components/blog/SocialShare.tsx:18-20 | the encoding holds only unreserved characters and "%" |
| `UriComponent.EncodeAppend` | src/components/blog/SocialShare.tsx:18-20 | encoding a concatenation concatenates the encodings |
| `UriComponent.EncodedHasNoDelimiter` | src/components/blog/SocialShare.tsx:23-25 | an encoded value holds no "&", "=", "?", "#" or "+", so it cannot break the query |
| `UriComponent.ReadEscapedChar` | src/components/blog/SocialShare.tsx:18-20 | the escapes of an escaped character read back as that character, whatever follows |
| `UriComponent.DecodeEncodedChar` | src/components/blog/SocialShare.tsx:18-20 | decoding an encoded character followed by more text yields the character followed by the decoding of the rest |
| `UriComponent.DecodeEncode` | src/components/blog/SocialShare.tsx:18-20 | decoding an encoding gives the original string back |
| `UriComponent.EncodeInjective` | src/components/blog/SocialShare.tsx:18-20 | different strings have different encodings |

## Left out

- Browser effects have no model. These are the dark-mode class on the document, `window.scrollTo`, the heading-id effect of the post view, the `IntersectionObserver` behind the active entry, `scrollIntoView`, the clipboard, `window.open`, toasts and `console.log`.
  - `SetActive` takes the id the observer would report as a parameter.
- The one-second and 1.5-second waits in the submit handlers are not modelled as time. Each handler is two methods: the work before the wait and the work after it.
  - Two overlapping submits are concurrency and are not modelled.
- Locale date formatting (`toLocaleDateString`) is not modelled.
- Dates are modelled only for `YYYY-MM-DD` strings that name a day of the proleptic Gregorian calendar. These are compared through an integer key that orders as their timestamps do.
  - Any other string gets key 0. That includes out-of-range months and days, such as "2024-13-01", "2024-00-10", "2024-02-31" and "2023-02-29".
  - For such strings some engines give an invalid date, so the comparator returns NaN, and others roll the date over into the next month. The order the source then produces is engine-defined, and the model does not follow either behaviour.
- The HTML string the renderer produces is modelled. How a browser parses it is not.
- `toLowerCase` and `toUpperCase` are modelled for ASCII letters only. Other characters are left unchanged; full Unicode case mapping can change length.
- Strings are sequences of Unicode scalar values, not of UTF-16 code units. As a consequence:
  - `n[0]` in the initials cannot split a surrogate pair;
  - `encodeURIComponent` never meets a lone surrogate, so its URIError case is not modelled.
- A comment without a `replies` list is modelled with an empty list; both render alike.
- Like counts are modelled as natural numbers.
- The comment list is a constant of the form. The source never calls a setter for it.
- Markup with no logic is not part of this model: the footer, the header, the featured-post card, the post cards and the grid.
- The search query is compared untrimmed, as `src/App.tsx:29-32` does. It is only lower-cased, and a trailing space in the query makes a match fail.
- `App.BannerMeansUnfiltered` requires that the selection is not the empty slug. The empty string is falsy, so the banner shows, yet it still filters. No badge ever sends that value.
