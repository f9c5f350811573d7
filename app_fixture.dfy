/**
 * The landing page over the shipped collection: with nothing selected the
 * banner shows the first post, and the query "react" narrows the list to the
 * one post about React, which is featured, so the grid below the count is
 * empty while the count reads "1 post".
 */
module AppFixture {
  import opened Wrappers
  import opened JsString
  import opened Seqs
  import opened BlogTypes
  import opened BlogData
  import opened App

  /** A case-folded search over a concatenation splits at a character the
      query does not contain. */
  lemma AppendExcludes(a: string, b: string, q: string)
    requires |a| > 0 && LowerChar(a[|a| - 1]) !in q
    requires !Includes(ToLowerCase(a), q) && !Includes(ToLowerCase(b), q)
    ensures !Includes(ToLowerCase(a + b), q)
  {
    LowerAppend(a, b);
    IncludesAppend(ToLowerCase(a), ToLowerCase(b), q);
  }

  /** Post 2 is tagged "React". */
  lemma Post2Hits()
    ensures MatchesSearch(Post2, "react")
  {
    assert ToLowerCase("react") == "react";
    assert ToLowerCase(Post2.tags[0]) == "react";
    assert MatchAt(ToLowerCase(Post2.tags[0]), "react", 0);
  }

  /** Searching "react" leaves post 2 alone; it is featured, so the grid is
      empty and the count reads "1 post". */
  lemma ReactSearch()
    ensures FilterPosts(BlogPosts, "react", None) == [Post2]
    ensures RegularPosts(FilterPosts(BlogPosts, "react", None)) == []
    ensures CountLabel(|FilterPosts(BlogPosts, "react", None)|) == "1 post"
    ensures SectionTitle("react", None) == "Search Results"
  {
    Post1Misses();
    Post2Hits();
    Post3Misses();
    Post4Misses();
    Post5Misses();
    Post6Misses();
    FilterBlogPosts((p: Post) => Matches(p, "react", None));
    assert RegularPosts([Post2]) == [];
    assert NatToString(1) == "1";
  }

  /** The banner over the unfiltered page shows the first post. */
  lemma FeaturedIsFirstPost()
    ensures FeaturedPost(BlogPosts) == Some(Post1)
    ensures ShowFeaturedBanner(FeaturedPost(BlogPosts), "", None)
  {
  }

  /** "Creati" holds every letter of "react" but not the word. */
  lemma ScannedExcludes0()
    ensures !Includes(ToLowerCase("Creati"), "react")
  {
    var l := ToLowerCase("Creati");
    assert |l| == 6 && l[0] == 'c' && l[4] == 't';
    assert !MatchAt(l, "react", 0) by { assert l[0..5][0] == l[0]; }
    assert !MatchAt(l, "react", 1) by { assert l[1..6][3] == l[4]; }
  }

  lemma Title1Part0()
    ensures !Includes(ToLowerCase("The Future of Web "), "react")
  {
    AbsentLetterExcludes(ToLowerCase("The Future of Web "), "react", 'a');
  }

  lemma Title1Part1()
    ensures !Includes(ToLowerCase("Development: Trends to "), "react")
  {
    AbsentLetterExcludes(ToLowerCase("Development: Trends to "), "react", 'a');
  }

  lemma Title1Part2()
    ensures !Includes(ToLowerCase("Watch in 2024"), "react")
  {
    AbsentLetterExcludes(ToLowerCase("Watch in 2024"), "react", 'r');
  }

  lemma Excerpt1Part0()
    ensures !Includes(ToLowerCase("Explore the cutting-edge "), "react")
  {
    AbsentLetterExcludes(ToLowerCase("Explore the cutting-edge "), "react", 'a');
  }

  lemma Excerpt1Part1()
    ensures !Includes(ToLowerCase("technologies and "), "react")
  {
    AbsentLetterExcludes(ToLowerCase("technologies and "), "react", 'r');
  }

  lemma Excerpt1Part2()
    ensures !Includes(ToLowerCase("methodologies that are "), "react")
  {
    AbsentLetterExcludes(ToLowerCase("methodologies that are "), "react", 'c');
  }

  lemma Excerpt1Part3()
    ensures !Includes(ToLowerCase("shaping the future of web "), "react")
  {
    AbsentLetterExcludes(ToLowerCase("shaping the future of web "), "react", 'c');
  }

  lemma Excerpt1Part4()
    ensures !Includes(ToLowerCase("development, from AI "), "react")
  {
    AbsentLetterExcludes(ToLowerCase("development, from AI "), "react", 'c');
  }

  lemma Excerpt1Part5()
    ensures !Includes(ToLowerCase("integration to performance "), "react")
  {
    assert "integration to performance " == "integration to performan" + "ce ";
    AbsentLetterExcludes(ToLowerCase("integration to performan"), "react", 'c');
    AppendExcludes("integration to performan", "ce ", "react");
  }

  lemma Excerpt1Part6()
    ensures !Includes(ToLowerCase("optimization."), "react")
  {
    AbsentLetterExcludes(ToLowerCase("optimization."), "react", 'r');
  }

  lemma Tag10Part0()
    ensures !Includes(ToLowerCase("Web Development"), "react")
  {
    AbsentLetterExcludes(ToLowerCase("Web Development"), "react", 'r');
  }

  lemma Tag12Part0()
    ensures !Includes(ToLowerCase("Performance"), "react")
  {
    AbsentLetterExcludes(ToLowerCase("Performance"), "react", 't');
  }

  lemma Tag13Part0()
    ensures !Includes(ToLowerCase("Trends"), "react")
  {
    AbsentLetterExcludes(ToLowerCase("Trends"), "react", 'a');
  }

  lemma Title3Part0()
    ensures !Includes(ToLowerCase("CSS Grid vs Flexbox: When "), "react")
  {
    AbsentLetterExcludes(ToLowerCase("CSS Grid vs Flexbox: When "), "react", 'a');
  }

  lemma Title3Part1()
    ensures !Includes(ToLowerCase("to Use Each"), "react")
  {
    AbsentLetterExcludes(ToLowerCase("to Use Each"), "react", 'r');
  }

  lemma Excerpt3Part0()
    ensures !Includes(ToLowerCase("A comprehensive comparison "), "react")
  {
    AbsentLetterExcludes(ToLowerCase("A comprehensive comparison "), "react", 't');
  }

  lemma Excerpt3Part1()
    ensures !Includes(ToLowerCase("of CSS Grid and Flexbox, "), "react")
  {
    AbsentLetterExcludes(ToLowerCase("of CSS Grid and Flexbox, "), "react", 't');
  }

  lemma Excerpt3Part2()
    ensures !Includes(ToLowerCase("helping you choose the "), "react")
  {
    AbsentLetterExcludes(ToLowerCase("helping you choose the "), "react", 'r');
  }

  lemma Excerpt3Part3()
    ensures !Includes(ToLowerCase("right layout method for "), "react")
  {
    AbsentLetterExcludes(ToLowerCase("right layout method for "), "react", 'c');
  }

  lemma Excerpt3Part4()
    ensures !Includes(ToLowerCase("your specific use cases."), "react")
  {
    AbsentLetterExcludes(ToLowerCase("your specific use cases."), "react", 't');
  }

  lemma Tag31Part0()
    ensures !Includes(ToLowerCase("Layout"), "react")
  {
    AbsentLetterExcludes(ToLowerCase("Layout"), "react", 'r');
  }

  lemma Tag33Part0()
    ensures !Includes(ToLowerCase("Flexbox"), "react")
  {
    AbsentLetterExcludes(ToLowerCase("Flexbox"), "react", 'r');
  }

  lemma Title4Part0()
    ensures !Includes(ToLowerCase("The Art of API Design: "), "react")
  {
    AbsentLetterExcludes(ToLowerCase("The Art of API Design: "), "react", 'c');
  }

  lemma Title4Part1()
    ensures !Includes(ToLowerCase("Creating Developer-Friendly "), "react")
  {
    assert "Creating Developer-Friendly " == "Creati" + "ng Developer-Friendly ";
    ScannedExcludes0();
    AbsentLetterExcludes(ToLowerCase("ng Developer-Friendly "), "react", 'a');
    AppendExcludes("Creati", "ng Developer-Friendly ", "react");
  }

  lemma Title4Part2()
    ensures !Includes(ToLowerCase("Interfaces"), "react")
  {
    assert "Interfaces" == "Interf" + "aces";
    AbsentLetterExcludes(ToLowerCase("Interf"), "react", 'a');
    AppendExcludes("Interf", "aces", "react");
  }

  lemma Excerpt4Part0()
    ensures !Includes(ToLowerCase("Discover the principles and "), "react")
  {
    assert "Discover the principles and " == "Discover the principles " + "and ";
    AbsentLetterExcludes(ToLowerCase("Discover the principles "), "react", 'a');
    AppendExcludes("Discover the principles ", "and ", "react");
  }

  lemma Excerpt4Part1()
    ensures !Includes(ToLowerCase("practices that make APIs "), "react")
  {
    assert "practices that make APIs " == "practi" + "ces that make APIs ";
    AbsentLetterExcludes(ToLowerCase("practi"), "react", 'e');
    AbsentLetterExcludes(ToLowerCase("ces that make APIs "), "react", 'r');
    AppendExcludes("practi", "ces that make APIs ", "react");
  }

  lemma Excerpt4Part2()
    ensures !Includes(ToLowerCase("intuitive, efficient, and "), "react")
  {
    AbsentLetterExcludes(ToLowerCase("intuitive, efficient, and "), "react", 'r');
  }

  lemma Excerpt4Part3()
    ensures !Includes(ToLowerCase("enjoyable to work with from "), "react")
  {
    AbsentLetterExcludes(ToLowerCase("enjoyable to work with from "), "react", 'c');
  }

  lemma Excerpt4Part4()
    ensures !Includes(ToLowerCase("a developer perspective."), "react")
  {
    assert "a developer perspective." == "a developer persp" + "ective.";
    AbsentLetterExcludes(ToLowerCase("a developer persp"), "react", 'c');
    AbsentLetterExcludes(ToLowerCase("ective."), "react", 'r');
    AppendExcludes("a developer persp", "ective.", "react");
  }

  lemma Tag41Part0()
    ensures !Includes(ToLowerCase("Design"), "react")
  {
    AbsentLetterExcludes(ToLowerCase("Design"), "react", 'r');
  }

  lemma Tag42Part0()
    ensures !Includes(ToLowerCase("Backend"), "react")
  {
    AbsentLetterExcludes(ToLowerCase("Backend"), "react", 'r');
  }

  lemma Tag43Part0()
    ensures !Includes(ToLowerCase("Documentation"), "react")
  {
    AbsentLetterExcludes(ToLowerCase("Documentation"), "react", 'r');
  }

  lemma Title5Part0()
    ensures !Includes(ToLowerCase("Mobile-First Design: Why It "), "react")
  {
    AbsentLetterExcludes(ToLowerCase("Mobile-First Design: Why It "), "react", 'a');
  }

  lemma Title5Part1()
    ensures !Includes(ToLowerCase("Matters More Than Ever"), "react")
  {
    AbsentLetterExcludes(ToLowerCase("Matters More Than Ever"), "react", 'c');
  }

  lemma Excerpt5Part0()
    ensures !Includes(ToLowerCase("Understanding the "), "react")
  {
    AbsentLetterExcludes(ToLowerCase("Understanding the "), "react", 'c');
  }

  lemma Excerpt5Part1()
    ensures !Includes(ToLowerCase("importance of mobile-first "), "react")
  {
    assert "importance of mobile-first " == "importan" + "ce of mobile-first ";
    AbsentLetterExcludes(ToLowerCase("importan"), "react", 'e');
    AbsentLetterExcludes(ToLowerCase("ce of mobile-first "), "react", 'a');
    AppendExcludes("importan", "ce of mobile-first ", "react");
  }

  lemma Excerpt5Part2()
    ensures !Includes(ToLowerCase("design in today's digital "), "react")
  {
    AbsentLetterExcludes(ToLowerCase("design in today's digital "), "react", 'r');
  }

  lemma Excerpt5Part3()
    ensures !Includes(ToLowerCase("landscape and how to "), "react")
  {
    AbsentLetterExcludes(ToLowerCase("landscape and how to "), "react", 'r');
  }

  lemma Excerpt5Part4()
    ensures !Includes(ToLowerCase("implement it effectively."), "react")
  {
    AbsentLetterExcludes(ToLowerCase("implement it effectively."), "react", 'r');
  }

  lemma Tag50Part0()
    ensures !Includes(ToLowerCase("Mobile"), "react")
  {
    AbsentLetterExcludes(ToLowerCase("Mobile"), "react", 'r');
  }

  lemma Tag52Part0()
    ensures !Includes(ToLowerCase("Responsive"), "react")
  {
    AbsentLetterExcludes(ToLowerCase("Responsive"), "react", 'a');
  }

  lemma Tag53Part0()
    ensures !Includes(ToLowerCase("Design"), "react")
  {
    AbsentLetterExcludes(ToLowerCase("Design"), "react", 'r');
  }

  lemma Title6Part0()
    ensures !Includes(ToLowerCase("TypeScript Best Practices "), "react")
  {
    assert "TypeScript Best Practices " == "TypeScript Best P" + "racti" + "ces ";
    AbsentLetterExcludes(ToLowerCase("TypeScript Best P"), "react", 'a');
    AbsentLetterExcludes(ToLowerCase("racti"), "react", 'e');
    AppendExcludes("TypeScript Best P", "racti", "react");
    AppendExcludes("TypeScript Best P" + "racti", "ces ", "react");
  }

  lemma Title6Part1()
    ensures !Includes(ToLowerCase("for Large Codebases"), "react")
  {
    AbsentLetterExcludes(ToLowerCase("for Large Codebases"), "react", 't');
  }

  lemma Excerpt6Part0()
    ensures !Includes(ToLowerCase("Essential TypeScript "), "react")
  {
    assert "Essential TypeScript " == "Essential TypeS" + "cript ";
    AbsentLetterExcludes(ToLowerCase("Essential TypeS"), "react", 'r');
    AbsentLetterExcludes(ToLowerCase("cript "), "react", 'e');
    AppendExcludes("Essential TypeS", "cript ", "react");
  }

  lemma Excerpt6Part1()
    ensures !Includes(ToLowerCase("patterns and practices for "), "react")
  {
    assert "patterns and practices for " == "patterns and p" + "racti" + "ces for ";
    AbsentLetterExcludes(ToLowerCase("patterns and p"), "react", 'c');
    AbsentLetterExcludes(ToLowerCase("racti"), "react", 'e');
    AbsentLetterExcludes(ToLowerCase("ces for "), "react", 'a');
    AppendExcludes("patterns and p", "racti", "react");
    AppendExcludes("patterns and p" + "racti", "ces for ", "react");
  }

  lemma Excerpt6Part2()
    ensures !Includes(ToLowerCase("maintaining type safety and "), "react")
  {
    AbsentLetterExcludes(ToLowerCase("maintaining type safety and "), "react", 'r');
  }

  lemma Excerpt6Part3()
    ensures !Includes(ToLowerCase("code quality in "), "react")
  {
    AbsentLetterExcludes(ToLowerCase("code quality in "), "react", 'r');
  }

  lemma Excerpt6Part4()
    ensures !Includes(ToLowerCase("enterprise-level "), "react")
  {
    AbsentLetterExcludes(ToLowerCase("enterprise-level "), "react", 'a');
  }

  lemma Excerpt6Part5()
    ensures !Includes(ToLowerCase("applications."), "react")
  {
    AbsentLetterExcludes(ToLowerCase("applications."), "react", 'r');
  }

  lemma Tag60Part0()
    ensures !Includes(ToLowerCase("TypeScript"), "react")
  {
    AbsentLetterExcludes(ToLowerCase("TypeScript"), "react", 'a');
  }

  lemma Tag61Part0()
    ensures !Includes(ToLowerCase("JavaScript"), "react")
  {
    AbsentLetterExcludes(ToLowerCase("JavaScript"), "react", 'e');
  }

  lemma Tag62Part0()
    ensures !Includes(ToLowerCase("Best Practices"), "react")
  {
    assert "Best Practices" == "Best P" + "racti" + "ces";
    AbsentLetterExcludes(ToLowerCase("Best P"), "react", 'r');
    AbsentLetterExcludes(ToLowerCase("racti"), "react", 'e');
    AppendExcludes("Best P", "racti", "react");
    AppendExcludes("Best P" + "racti", "ces", "react");
  }

  lemma Tag63Part0()
    ensures !Includes(ToLowerCase("Enterprise"), "react")
  {
    AbsentLetterExcludes(ToLowerCase("Enterprise"), "react", 'a');
  }

  lemma Title1Excludes()
    ensures !Includes(ToLowerCase(Post1.title), "react")
  {
    Title1Part0();
    Title1Part1();
    Title1Part2();
    AppendExcludes("The Future of Web ", "Development: Trends to ", "react");
    AppendExcludes("The Future of Web " + "Development: Trends to ", "Watch in 2024", "react");
  }

  lemma Excerpt1Excludes()
    ensures !Includes(ToLowerCase(Post1.excerpt), "react")
  {
    Excerpt1Part0();
    Excerpt1Part1();
    Excerpt1Part2();
    Excerpt1Part3();
    Excerpt1Part4();
    Excerpt1Part5();
    Excerpt1Part6();
    AppendExcludes("Explore the cutting-edge ", "technologies and ", "react");
    AppendExcludes("Explore the cutting-edge " + "technologies and ", "methodologies that are ", "react");
    AppendExcludes("Explore the cutting-edge " + "technologies and " + "methodologies that are ", "shaping the future of web ", "react");
    AppendExcludes("Explore the cutting-edge " + "technologies and " + "methodologies that are " + "shaping the future of web ", "development, from AI ", "react");
    AppendExcludes("Explore the cutting-edge " + "technologies and " + "methodologies that are " + "shaping the future of web " + "development, from AI ", "integration to performance ", "react");
    AppendExcludes("Explore the cutting-edge " + "technologies and " + "methodologies that are " + "shaping the future of web " + "development, from AI " + "integration to performance ", "optimization.", "react");
  }

  lemma Tags1Exclude()
    ensures !SomeTagIncludes(Post1, "react")
  {
    Tag10Part0();
    Tag12Part0();
    Tag13Part0();
  }

  lemma Post1Misses()
    ensures !MatchesSearch(Post1, "react")
  {
    assert ToLowerCase("react") == "react";
    Title1Excludes();
    Excerpt1Excludes();
    Tags1Exclude();
  }

  lemma Title3Excludes()
    ensures !Includes(ToLowerCase(Post3.title), "react")
  {
    Title3Part0();
    Title3Part1();
    AppendExcludes("CSS Grid vs Flexbox: When ", "to Use Each", "react");
  }

  lemma Excerpt3Excludes()
    ensures !Includes(ToLowerCase(Post3.excerpt), "react")
  {
    Excerpt3Part0();
    Excerpt3Part1();
    Excerpt3Part2();
    Excerpt3Part3();
    Excerpt3Part4();
    AppendExcludes("A comprehensive comparison ", "of CSS Grid and Flexbox, ", "react");
    AppendExcludes("A comprehensive comparison " + "of CSS Grid and Flexbox, ", "helping you choose the ", "react");
    AppendExcludes("A comprehensive comparison " + "of CSS Grid and Flexbox, " + "helping you choose the ", "right layout method for ", "react");
    AppendExcludes("A comprehensive comparison " + "of CSS Grid and Flexbox, " + "helping you choose the " + "right layout method for ", "your specific use cases.", "react");
  }

  lemma Tags3Exclude()
    ensures !SomeTagIncludes(Post3, "react")
  {
    Tag31Part0();
    Tag33Part0();
  }

  lemma Post3Misses()
    ensures !MatchesSearch(Post3, "react")
  {
    assert ToLowerCase("react") == "react";
    Title3Excludes();
    Excerpt3Excludes();
    Tags3Exclude();
  }

  lemma Title4Excludes()
    ensures !Includes(ToLowerCase(Post4.title), "react")
  {
    Title4Part0();
    Title4Part1();
    Title4Part2();
    AppendExcludes("The Art of API Design: ", "Creating Developer-Friendly ", "react");
    AppendExcludes("The Art of API Design: " + "Creating Developer-Friendly ", "Interfaces", "react");
  }

  lemma Excerpt4Excludes()
    ensures !Includes(ToLowerCase(Post4.excerpt), "react")
  {
    Excerpt4Part0();
    Excerpt4Part1();
    Excerpt4Part2();
    Excerpt4Part3();
    Excerpt4Part4();
    AppendExcludes("Discover the principles and ", "practices that make APIs ", "react");
    AppendExcludes("Discover the principles and " + "practices that make APIs ", "intuitive, efficient, and ", "react");
    AppendExcludes("Discover the principles and " + "practices that make APIs " + "intuitive, efficient, and ", "enjoyable to work with from ", "react");
    AppendExcludes("Discover the principles and " + "practices that make APIs " + "intuitive, efficient, and " + "enjoyable to work with from ", "a developer perspective.", "react");
  }

  lemma Tags4Exclude()
    ensures !SomeTagIncludes(Post4, "react")
  {
    Tag41Part0();
    Tag42Part0();
    Tag43Part0();
  }

  lemma Post4Misses()
    ensures !MatchesSearch(Post4, "react")
  {
    assert ToLowerCase("react") == "react";
    Title4Excludes();
    Excerpt4Excludes();
    Tags4Exclude();
  }

  lemma Title5Excludes()
    ensures !Includes(ToLowerCase(Post5.title), "react")
  {
    Title5Part0();
    Title5Part1();
    AppendExcludes("Mobile-First Design: Why It ", "Matters More Than Ever", "react");
  }

  lemma Excerpt5Excludes()
    ensures !Includes(ToLowerCase(Post5.excerpt), "react")
  {
    Excerpt5Part0();
    Excerpt5Part1();
    Excerpt5Part2();
    Excerpt5Part3();
    Excerpt5Part4();
    AppendExcludes("Understanding the ", "importance of mobile-first ", "react");
    AppendExcludes("Understanding the " + "importance of mobile-first ", "design in today's digital ", "react");
    AppendExcludes("Understanding the " + "importance of mobile-first " + "design in today's digital ", "landscape and how to ", "react");
    AppendExcludes("Understanding the " + "importance of mobile-first " + "design in today's digital " + "landscape and how to ", "implement it effectively.", "react");
  }

  lemma Tags5Exclude()
    ensures !SomeTagIncludes(Post5, "react")
  {
    Tag50Part0();
    Tag52Part0();
    Tag53Part0();
  }

  lemma Post5Misses()
    ensures !MatchesSearch(Post5, "react")
  {
    assert ToLowerCase("react") == "react";
    Title5Excludes();
    Excerpt5Excludes();
    Tags5Exclude();
  }

  lemma Title6Excludes()
    ensures !Includes(ToLowerCase(Post6.title), "react")
  {
    Title6Part0();
    Title6Part1();
    AppendExcludes("TypeScript Best Practices ", "for Large Codebases", "react");
  }

  lemma Excerpt6Excludes()
    ensures !Includes(ToLowerCase(Post6.excerpt), "react")
  {
    Excerpt6Part0();
    Excerpt6Part1();
    Excerpt6Part2();
    Excerpt6Part3();
    Excerpt6Part4();
    Excerpt6Part5();
    AppendExcludes("Essential TypeScript ", "patterns and practices for ", "react");
    AppendExcludes("Essential TypeScript " + "patterns and practices for ", "maintaining type safety and ", "react");
    AppendExcludes("Essential TypeScript " + "patterns and practices for " + "maintaining type safety and ", "code quality in ", "react");
    AppendExcludes("Essential TypeScript " + "patterns and practices for " + "maintaining type safety and " + "code quality in ", "enterprise-level ", "react");
    AppendExcludes("Essential TypeScript " + "patterns and practices for " + "maintaining type safety and " + "code quality in " + "enterprise-level ", "applications.", "react");
  }

  lemma Tags6Exclude()
    ensures !SomeTagIncludes(Post6, "react")
  {
    Tag60Part0();
    Tag61Part0();
    Tag62Part0();
    Tag63Part0();
  }

  lemma Post6Misses()
    ensures !MatchesSearch(Post6, "react")
  {
    assert ToLowerCase("react") == "react";
    Title6Excludes();
    Excerpt6Excludes();
    Tags6Exclude();
  }
}
