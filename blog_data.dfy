/**
 * The built-in collection the site renders: six posts and four categories.
 * Post contents are written as verbatim strings, line for line. Titles and
 * excerpts are written as concatenations of pieces of at most 28 characters,
 * each but the last ending in a space, so that facts about them can be
 * established piece by piece.
 */
module BlogData {
  import opened BlogTypes
  import opened JsString
  import opened Seqs

  /** The opening of post 1, up to the blank line before its "Key Benefits" list. */
  const Post1Opening := "\n# " + @"The Future of Web Development: Trends to Watch in 2024

The web development landscape is evolving at an unprecedented pace. As we navigate through 2024, several key trends are emerging that will define how we build and interact with web applications.

## AI-Powered Development

Artificial Intelligence is revolutionizing how we approach web development. From code generation to automated testing, AI tools are becoming indispensable for modern developers."

  /** A heading line followed directly by a list, with no blank line between
      them; written as its lines joined by line breaks. */
  const KeyBenefitsLines: seq<string> := [
    "### Key Benefits:",
    "- Faster development cycles",
    "- Improved code quality",
    "- Enhanced user experiences",
    "- Automated optimization"
  ]

  const KeyBenefitsSection := Join(KeyBenefitsLines, "\n")

  /** The rest of post 1, after the blank line that ends the list. */
  const Post1Closing := @"## Performance-First Architecture

Modern web applications demand exceptional performance. The focus has shifted from feature-rich applications to performance-optimized solutions that deliver instant user experiences.

## Conclusion

The future of web development is bright, with exciting technologies on the horizon. Staying updated with these trends will be crucial for developers looking to remain competitive in the evolving landscape.
    "

  const Post1Content := Post1Opening + "\n\n" + KeyBenefitsSection + "\n\n" + Post1Closing

  const Post1 := Post(
    id := "1",
    title := "The Future of Web "
          + "Development: Trends to "
          + "Watch in 2024",
    excerpt := "Explore the cutting-edge "
            + "technologies and "
            + "methodologies that are "
            + "shaping the future of web "
            + "development, from AI "
            + "integration to performance "
            + "optimization.",
    content := Post1Content,
    author := Author(
      name := "Sarah Chen",
      avatar := "https://images.unsplash.com/photo-1494790108755-2616b612b786?w=150&h=150&fit=crop&crop=face",
      bio := "Senior Full-Stack Developer with 8+ years of experience in modern web technologies."),
    publishedAt := "2024-01-15",
    readingTime := 8,
    category := "Technology",
    tags := ["Web Development", "AI", "Performance", "Trends"],
    featured := true,
    image := "https://images.unsplash.com/photo-1555066931-4365d14bab8c?w=800&h=400&fit=crop",
    slug := "future-of-web-development-2024")

  const Post2Content := @"
# Building Scalable React Applications: Best Practices

Creating React applications that scale effectively requires careful planning and adherence to proven patterns. This guide covers the essential practices for building maintainable, performant React apps.

## Component Architecture

A well-structured component hierarchy is the foundation of any scalable React application. Focus on creating reusable, single-responsibility components.

### Key Principles:
- Keep components small and focused
- Use composition over inheritance
- Implement proper prop validation
- Leverage custom hooks for logic reuse

## State Management

Choosing the right state management solution is crucial for application scalability. Consider your app's complexity and team size when making this decision.

## Performance Optimization

React provides several built-in optimization techniques that can significantly improve your application's performance.

## Conclusion

Building scalable React applications requires discipline and adherence to best practices. By following these guidelines, you'll create applications that are maintainable and performant.
    "

  const Post2 := Post(
    id := "2",
    title := "Building Scalable React "
          + "Applications: Best Practices",
    excerpt := "Learn essential patterns "
            + "and practices for building "
            + "React applications that can "
            + "grow with your business "
            + "needs while maintaining "
            + "code quality.",
    content := Post2Content,
    author := Author(
      name := "Michael Rodriguez",
      avatar := "https://images.unsplash.com/photo-1472099645785-5658abf4ff4e?w=150&h=150&fit=crop&crop=face",
      bio := "React specialist and technical lead with expertise in large-scale application architecture."),
    publishedAt := "2024-01-12",
    readingTime := 12,
    category := "Development",
    tags := ["React", "JavaScript", "Architecture", "Best Practices"],
    featured := true,
    image := "https://images.unsplash.com/photo-1633356122544-f134324a6cee?w=800&h=400&fit=crop",
    slug := "building-scalable-react-applications")

  const Post3Content := @"
# CSS Grid vs Flexbox: When to Use Each

Both CSS Grid and Flexbox are powerful layout systems, but they excel in different scenarios. Understanding when to use each will make you a more effective developer.

## Understanding Flexbox

Flexbox is designed for one-dimensional layouts. It excels at distributing space and aligning items along a single axis.

### Best Use Cases:
- Navigation bars
- Card layouts
- Centering content
- Equal height columns

## Understanding CSS Grid

CSS Grid is built for two-dimensional layouts, allowing you to control both rows and columns simultaneously.

### Best Use Cases:
- Complex page layouts
- Magazine-style designs
- Dashboard interfaces
- Image galleries

## Making the Right Choice

The decision between Grid and Flexbox often comes down to the complexity of your layout and whether you need one or two-dimensional control.

## Conclusion

Both CSS Grid and Flexbox have their place in modern web development. Understanding their strengths will help you create better, more maintainable layouts.
    "

  const Post3 := Post(
    id := "3",
    title := "CSS Grid vs Flexbox: When "
          + "to Use Each",
    excerpt := "A comprehensive comparison "
            + "of CSS Grid and Flexbox, "
            + "helping you choose the "
            + "right layout method for "
            + "your specific use cases.",
    content := Post3Content,
    author := Author(
      name := "Emma Thompson",
      avatar := "https://images.unsplash.com/photo-1438761681033-6461ffad8d80?w=150&h=150&fit=crop&crop=face",
      bio := "CSS expert and design systems architect with a passion for creating beautiful, functional interfaces."),
    publishedAt := "2024-01-10",
    readingTime := 6,
    category := "Design",
    tags := ["CSS", "Layout", "Grid", "Flexbox"],
    featured := false,
    image := "https://images.unsplash.com/photo-1507003211169-0a1dd7228f2d?w=800&h=400&fit=crop",
    slug := "css-grid-vs-flexbox")

  const Post4Content := @"
# The Art of API Design: Creating Developer-Friendly Interfaces

Great API design is both an art and a science. It requires balancing functionality, simplicity, and developer experience to create interfaces that are both powerful and intuitive.

## Core Principles

Successful APIs follow several key principles that make them easy to understand and use.

### Consistency is Key
- Use consistent naming conventions
- Follow predictable patterns
- Maintain uniform response structures

## Documentation Matters

No matter how well-designed your API is, poor documentation can make it unusable. Invest in comprehensive, clear documentation.

## Versioning Strategy

Plan for change from the beginning. A solid versioning strategy ensures backward compatibility while allowing for evolution.

## Conclusion

Creating developer-friendly APIs requires careful consideration of design principles, documentation, and long-term maintenance. The investment in good design pays dividends in adoption and developer satisfaction.
    "

  const Post4 := Post(
    id := "4",
    title := "The Art of API Design: "
          + "Creating Developer-Friendly "
          + "Interfaces",
    excerpt := "Discover the principles and "
            + "practices that make APIs "
            + "intuitive, efficient, and "
            + "enjoyable to work with from "
            + "a developer perspective.",
    content := Post4Content,
    author := Author(
      name := "David Kim",
      avatar := "https://images.unsplash.com/photo-1507003211169-0a1dd7228f2d?w=150&h=150&fit=crop&crop=face",
      bio := "Backend architect and API design specialist with experience building systems used by millions of developers."),
    publishedAt := "2024-01-08",
    readingTime := 10,
    category := "Backend",
    tags := ["API", "Design", "Backend", "Documentation"],
    featured := false,
    image := "https://images.unsplash.com/photo-1558494949-ef010cbdcc31?w=800&h=400&fit=crop",
    slug := "art-of-api-design")

  const Post5Content := @"
# Mobile-First Design: Why It Matters More Than Ever

With mobile traffic accounting for over 50% of web usage, mobile-first design isn't just a trend—it's a necessity for modern web development.

## The Mobile-First Approach

Mobile-first design means starting with the smallest screen size and progressively enhancing the experience for larger screens.

### Benefits:
- Better performance on mobile devices
- Improved user experience
- Higher search engine rankings
- Future-proof design approach

## Implementation Strategies

Successfully implementing mobile-first design requires a shift in thinking and approach.

## Common Pitfalls

Avoid these common mistakes when implementing mobile-first design.

## Conclusion

Mobile-first design is essential for creating successful web experiences in today's mobile-dominated world. Start small, think progressively, and always prioritize your mobile users.
    "

  const Post5 := Post(
    id := "5",
    title := "Mobile-First Design: Why It "
          + "Matters More Than Ever",
    excerpt := "Understanding the "
            + "importance of mobile-first "
            + "design in today's digital "
            + "landscape and how to "
            + "implement it effectively.",
    content := Post5Content,
    author := Author(
      name := "Lisa Park",
      avatar := "https://images.unsplash.com/photo-1494790108755-2616b612b786?w=150&h=150&fit=crop&crop=face",
      bio := "UX designer and mobile experience specialist focused on creating intuitive, accessible interfaces."),
    publishedAt := "2024-01-05",
    readingTime := 7,
    category := "Design",
    tags := ["Mobile", "UX", "Responsive", "Design"],
    featured := false,
    image := "https://images.unsplash.com/photo-1512941937669-90a1b58e7e9c?w=800&h=400&fit=crop",
    slug := "mobile-first-design-importance")

  const Post6Content := @"
# TypeScript Best Practices for Large Codebases

TypeScript shines in large codebases where type safety and maintainability are crucial. Here are the practices that will help you leverage TypeScript effectively.

## Type System Mastery

Understanding TypeScript's type system deeply is essential for writing maintainable code.

### Advanced Types:
- Union and intersection types
- Conditional types
- Mapped types
- Template literal types

## Project Structure

Organizing your TypeScript project properly sets the foundation for long-term success.

## Configuration Best Practices

A well-configured TypeScript project prevents common issues and improves developer experience.

## Conclusion

TypeScript's power lies in its ability to catch errors early and improve code maintainability. Following these best practices will help you build robust, scalable applications.
    "

  const Post6 := Post(
    id := "6",
    title := "TypeScript Best Practices "
          + "for Large Codebases",
    excerpt := "Essential TypeScript "
            + "patterns and practices for "
            + "maintaining type safety and "
            + "code quality in "
            + "enterprise-level "
            + "applications.",
    content := Post6Content,
    author := Author(
      name := "Alex Johnson",
      avatar := "https://images.unsplash.com/photo-1472099645785-5658abf4ff4e?w=150&h=150&fit=crop&crop=face",
      bio := "TypeScript evangelist and senior developer with extensive experience in large-scale application development."),
    publishedAt := "2024-01-03",
    readingTime := 9,
    category := "Development",
    tags := ["TypeScript", "JavaScript", "Best Practices", "Enterprise"],
    featured := false,
    image := "https://images.unsplash.com/photo-1516116216624-53e697fedbea?w=800&h=400&fit=crop",
    slug := "typescript-best-practices-large-codebases")

  const BlogPosts: seq<Post> := [Post1, Post2, Post3, Post4, Post5, Post6]

  const Categories: seq<Category> := [
    Category("1", "Technology", "technology", 1),
    Category("2", "Development", "development", 2),
    Category("3", "Design", "design", 2),
    Category("4", "Backend", "backend", 1)
  ]

  // ---------------------------------------------------------------------------
  // Facts about the collection
  // ---------------------------------------------------------------------------

  lemma IdsDistinct()
    ensures forall i, j :: 0 <= i < j < |BlogPosts| ==> BlogPosts[i].id != BlogPosts[j].id
  {
  }

  lemma SlugsDistinct()
    ensures forall i, j :: 0 <= i < j < |BlogPosts| ==> BlogPosts[i].slug != BlogPosts[j].slug
  {
  }

  lemma ReadingTimesPositive()
    ensures forall i :: 0 <= i < |BlogPosts| ==> BlogPosts[i].readingTime > 0
  {
  }

  /** Exactly the first two posts are featured. */
  lemma FeaturedAreFirstTwo()
    ensures forall i :: 0 <= i < |BlogPosts| ==> (BlogPosts[i].featured <==> i < 2)
  {
  }

  /** Every category slug is its name lower-cased. */
  lemma CategorySlugsAreLowerNames()
    ensures forall k :: 0 <= k < |Categories| ==> Categories[k].slug == ToLowerCase(Categories[k].name)
  {
  }

  /** The slugs the category badges select, in list order. */
  function CategorySlugs(cats: seq<Category>): (r: seq<string>)
    ensures |r| == |cats| && forall k :: 0 <= k < |cats| ==> r[k] == cats[k].slug
  {
    seq(|cats|, k requires 0 <= k < |cats| => cats[k].slug)
  }

  /** Posts each filed under a listed category, whose slugs are the
      lower-cased names, can each be reached through some category's slug. */
  lemma SlugsCoverPosts(posts: seq<Post>, cats: seq<Category>, index: seq<nat>)
    requires |index| == |posts|
    requires forall i :: 0 <= i < |posts| ==> index[i] < |cats| && posts[i].category == cats[index[i]].name
    requires forall k :: 0 <= k < |cats| ==> cats[k].slug == ToLowerCase(cats[k].name)
    ensures forall i :: 0 <= i < |posts| ==> ToLowerCase(posts[i].category) in CategorySlugs(cats)
  {
    forall i | 0 <= i < |posts| ensures ToLowerCase(posts[i].category) in CategorySlugs(cats) {
      assert CategorySlugs(cats)[index[i]] == ToLowerCase(posts[i].category);
    }
  }

  /** The category each post is filed under, by position in the list. */
  lemma PostCategoryIndex()
    ensures forall i :: 0 <= i < |BlogPosts| ==>
      [0, 1, 2, 3, 2, 1][i] < |Categories| && BlogPosts[i].category == Categories[[0, 1, 2, 3, 2, 1][i]].name
  {
  }

  /** Every post's lower-cased category is the slug of some category, so
      every post can be reached through a category badge. */
  lemma PostCategoriesHaveSlugs()
    ensures forall i :: 0 <= i < |BlogPosts| ==> ToLowerCase(BlogPosts[i].category) in CategorySlugs(Categories)
  {
    CategorySlugsAreLowerNames();
    PostCategoryIndex();
    SlugsCoverPosts(BlogPosts, Categories, [0, 1, 2, 3, 2, 1]);
  }

  /** Filtering the collection, written out element by element. */
  lemma FilterBlogPosts(keep: Post -> bool)
    ensures Filter(BlogPosts, keep) ==
      (if keep(Post1) then [Post1] else []) + ((if keep(Post2) then [Post2] else [])
      + ((if keep(Post3) then [Post3] else []) + ((if keep(Post4) then [Post4] else [])
      + ((if keep(Post5) then [Post5] else []) + (if keep(Post6) then [Post6] else [])))))
  {
    FilterOfSix(BlogPosts, keep);
  }

  /** Each category's stored count is the number of posts filed under it. */
  lemma CategoryCountsMatch()
    ensures forall k :: 0 <= k < |Categories| ==>
      Categories[k].count == |Filter(BlogPosts, (p: Post) => p.category == Categories[k].name)|
  {
    forall k | 0 <= k < |Categories|
      ensures Categories[k].count == |Filter(BlogPosts, (p: Post) => p.category == Categories[k].name)|
    {
      FilterBlogPosts((p: Post) => p.category == Categories[k].name);
    }
  }
}
