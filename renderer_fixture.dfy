/**
 * The renderer and the table of contents on the first shipped post: its
 * "Key Benefits" heading shares a block with the list under it, so the
 * renderer gives that heading an id the table of contents does not link to.
 */
module RendererFixture {
  import opened JsString
  import opened HeadingSlug
  import opened TableOfContents
  import opened PostRenderer
  import opened BlogData

  /** No two line breaks side by side. */
  predicate NoBlankLine(s: string)
  {
    forall i :: 0 <= i < |s| - 1 ==> s[i] != '\n' || s[i + 1] != '\n'
  }

  lemma NoBlankLineExcludes(s: string)
    requires NoBlankLine(s)
    ensures !Includes(s, BlockSeparator)
  {
    forall i: nat | i <= |s| ensures !MatchAt(s, BlockSeparator, i) {
      if i + 2 <= |s| {
        assert s[i..i + 2][0] == s[i] && s[i..i + 2][1] == s[i + 1];
      }
    }
  }

  /** Non-empty lines without line breaks, joined by single line breaks, hold
      no blank line and neither start nor end with a line break. */
  lemma {:induction false} JoinedLines(lines: seq<string>)
    requires |lines| >= 1
    requires forall k :: 0 <= k < |lines| ==> |lines[k]| > 0 && '\n' !in lines[k]
    ensures var s := Join(lines, "\n");
      |s| > 0 && s[0] != '\n' && s[|s| - 1] != '\n' && NoBlankLine(s)
    decreases |lines|
  {
    assert lines[0][0] in lines[0];
    if |lines| == 1 {
      forall i | 0 <= i < |lines[0]| - 1 ensures lines[0][i] != '\n' {
        assert lines[0][i] in lines[0];
      }
    } else {
      var a, rest := lines[0], Join(lines[1..], "\n");
      JoinedLines(lines[1..]);
      var s := a + "\n" + rest;
      assert Join(lines, "\n") == s;
      forall i | 0 <= i < |s| - 1 ensures s[i] != '\n' || s[i + 1] != '\n' {
        if i < |a| {
          assert s[i] == a[i] && a[i] in a;
        } else if i > |a| {
          assert s[i] == rest[i - |a| - 1] && s[i + 1] == rest[i - |a|];
        }
      }
    }
  }

  lemma KeyBenefitsShape()
    ensures |KeyBenefitsSection| > 0 && KeyBenefitsSection[|KeyBenefitsSection| - 1] != '\n'
    ensures !Includes(KeyBenefitsSection, BlockSeparator)
  {
    forall k | 0 <= k < |KeyBenefitsLines|
      ensures |KeyBenefitsLines[k]| > 0 && '\n' !in KeyBenefitsLines[k]
    {
    }
    JoinedLines(KeyBenefitsLines);
    NoBlankLineExcludes(KeyBenefitsSection);
  }

  /** A block between two separators is one piece of the split, as long as
      it holds no blank line and neither it nor the text before it ends in a
      line break. */
  lemma MiddleBlock(o: string, k: string, c: string)
    requires o == [] || o[|o| - 1] != '\n'
    requires |k| > 0 && k[|k| - 1] != '\n' && !Includes(k, BlockSeparator)
    ensures Split(o + BlockSeparator + k + BlockSeparator + c, BlockSeparator)
      == Split(o, BlockSeparator) + [k] + Split(c, BlockSeparator)
  {
    assert o + BlockSeparator + k + BlockSeparator + c == o + BlockSeparator + (k + BlockSeparator + c);
    NoStraddleAfterBlock(o, k + BlockSeparator + c);
    SplitAppend(o, BlockSeparator, k + BlockSeparator + c);
    NoStraddleAfterBlock(k, c);
    SplitAppend(k, BlockSeparator, c);
    SplitNone(k, BlockSeparator);
  }

  /** The "Key Benefits" heading and its list form one block of post 1. */
  lemma KeyBenefitsIsOneBlock()
    ensures Split(Post1Content, BlockSeparator)
      == Split(Post1Opening, BlockSeparator) + [KeyBenefitsSection] + Split(Post1Closing, BlockSeparator)
    ensures KeyBenefitsSection in Split(Post1Content, BlockSeparator)
  {
    assert Post1Opening[|Post1Opening| - 1] == '.';
    KeyBenefitsShape();
    MiddleBlock(Post1Opening, KeyBenefitsSection, Post1Closing);
    assert Split(Post1Content, BlockSeparator)[|Split(Post1Opening, BlockSeparator)|] == KeyBenefitsSection;
  }

  /** A list of two or more lines joined: the first line, the separator,
      then the others joined. */
  lemma JoinFirst(lines: seq<string>, sep: string)
    requires |lines| >= 2
    ensures Join(lines, sep) == lines[0] + (sep + Join(lines[1..], sep))
  {
    JoinCons(lines[0], lines[1..], sep);
    assert [lines[0]] + lines[1..] == lines;
  }

  /** The first line of the block is a level-3 heading line. */
  lemma KeyBenefitsFirstLine()
    ensures KeyBenefitsLines[0] == Hashes(3) + " " + "Key Benefits:"
  {
    assert Hashes(3) == "###";
  }

  /** The heading line opening the block, and the lines under it. */
  lemma KeyBenefitsHeading()
    ensures KeyBenefitsSection
      == Hashes(3) + " " + "Key Benefits:" + ("\n" + Join(KeyBenefitsLines[1..], "\n"))
    ensures Join(KeyBenefitsLines[1..], "\n")[2] == 'F'
  {
    JoinFirst(KeyBenefitsLines, "\n");
    KeyBenefitsFirstLine();
    var under := KeyBenefitsLines[1..];
    JoinFirst(under, "\n");
    assert under[0] == "- Faster development cycles";
  }

  /** Inside that block (see KeyBenefitsIsOneBlock) the table of contents
      links the heading as "key-benefits" while the renderer's id also takes
      in the list. */
  lemma KeyBenefitsIdsDisagree()
    ensures |Headings(KeyBenefitsSection)| > 0
    ensures Headings(KeyBenefitsSection)[0] == TocItem(Slug("Key Benefits:"), "Key Benefits:", 3)
    ensures Slug(HeadingText(KeyBenefitsSection)) != Slug("Key Benefits:")
  {
    KeyBenefitsHeading();
    assert TocHeadingLine(3, "Key Benefits:");
    FollowedHeadingIdsDisagree(3, "Key Benefits:", Join(KeyBenefitsLines[1..], "\n"), 2);
  }

  /** Post 1 opens with a line break, so its title line renders inside a
      paragraph rather than as a heading. Its first block is the first block
      of its opening (KeyBenefitsIsOneBlock). */
  lemma TitleLineIsParagraph()
    ensures var first := Split(Post1Opening, BlockSeparator)[0];
      first != [] && first[0] == '\n' && Fragment(first) == ParagraphOpen + first + ParagraphClose
  {
    assert Post1Opening[0] == '\n' && Post1Opening[1] == '#';
    LeadingNewlineMakesParagraph(Post1Opening);
  }
}
