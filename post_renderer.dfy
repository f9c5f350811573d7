/**
 * The body of the post detail view: the markdown content is cut at every
 * blank line ("\n\n"), each block becomes one HTML fragment, and the
 * fragments are concatenated. A block that starts with `#` becomes a heading
 * `h{L}`, `L` being the number of leading `#`, whose id is the heading slug of
 * its text; any other block becomes a paragraph holding the block verbatim.
 */
module PostRenderer {
  import opened Wrappers
  import opened JsString
  import opened Seqs
  import opened HeadingSlug
  import opened TableOfContents

  const BlockSeparator := "\n\n"
  const ParagraphOpen := "<p class=\"mb-4 text-gray-700 dark:text-gray-300 leading-relaxed\">"
  const ParagraphClose := "</p>"
  const HeadingStyle := " font-bold mt-8 mb-4 text-gray-900 dark:text-white"

  /** `n` times `#`. */
  function Hashes(n: nat): (r: string)
    ensures |r| == n && forall i :: 0 <= i < n ==> r[i] == '#'
  {
    seq(n, _ => '#')
  }

  // ---------------------------------------------------------------------------
  // One block
  // ---------------------------------------------------------------------------

  /** `paragraph.match(/^#+/)?.[0].length || 1`: the length of the leading
      `#` run, or 1 when there is none. */
  function HeadingLevel(block: string): (r: nat)
    ensures r >= 1
    ensures HashCount(block, 0) > 0 ==> r == HashCount(block, 0)
  {
    var n := HashCount(block, 0);
    if n == 0 then 1 else n
  }

  /** `paragraph.replace(/^#+\s*\/, '')`: the leading `#` run and the white
      space after it (line breaks included) removed. */
  function HeadingText(block: string): (r: string)
    ensures |r| <= |block|
    ensures HashCount(block, 0) > 0 ==> |r| < |block|
  {
    var n := HashCount(block, 0);
    if n == 0 then block else TrimStart(block[n..])
  }

  /** The size class table, defined for the levels 1 to 6. */
  function SizeClass(level: nat): (r: Option<string>)
    ensures r.Some? <==> 1 <= level <= 6
  {
    if level == 1 then Some("text-3xl")
    else if level == 2 then Some("text-2xl")
    else if level == 3 then Some("text-xl")
    else if level == 4 then Some("text-lg")
    else if level == 5 then Some("text-base")
    else if level == 6 then Some("text-sm")
    else None
  }

  /** A template literal renders a missing value as `undefined`. */
  function Interpolated(v: Option<string>): string
  {
    match v
    case None => "undefined"
    case Some(s) => s
  }

  function HeadingHtml(level: nat, id: string, text: string): string
  {
    "<h" + NatToString(level) + " id=\"" + id + "\" class=\"" + Interpolated(SizeClass(level))
      + HeadingStyle + "\">" + text + ("</h" + NatToString(level) + ">")
  }

  /** The fragment one block renders to. A paragraph holds the block as it
      is, unescaped; a heading carries the `#` count as its level. */
  function Fragment(block: string): (r: string)
    ensures !StartsWith(block, "#") ==> r == ParagraphOpen + block + ParagraphClose
    ensures StartsWith(block, "#") ==>
      r == HeadingHtml(HashCount(block, 0), Slug(HeadingText(block)), HeadingText(block))
  {
    if StartsWith(block, "#") then
      assert block[0] == block[0..1][0];
      var text := HeadingText(block);
      HeadingHtml(HeadingLevel(block), Slug(text), text)
    else
      ParagraphOpen + block + ParagraphClose
  }

  function Fragments(blocks: seq<string>): (r: seq<string>)
    ensures |r| == |blocks| && forall k :: 0 <= k < |blocks| ==> r[k] == Fragment(blocks[k])
  {
    seq(|blocks|, k requires 0 <= k < |blocks| => Fragment(blocks[k]))
  }

  /** `processContent`. */
  function ProcessContent(content: string): string
  {
    Join(Fragments(Split(content, BlockSeparator)), "")
  }

  // ---------------------------------------------------------------------------
  // Properties of one block
  // ---------------------------------------------------------------------------

  /** A block that starts with `#` has a `#` run of length at least 1, so the
      `|| 1` fallback never applies and the level is the length of that run. */
  lemma HeadingLevelIsHashRun(block: string)
    requires StartsWith(block, "#")
    ensures HeadingLevel(block) == HashCount(block, 0) >= 1
    ensures forall i :: 0 <= i < HeadingLevel(block) ==> block[i] == '#'
    ensures HeadingLevel(block) == |block| || block[HeadingLevel(block)] != '#'
  {
    assert block[0] == block[0..1][0];
    HashRun(block, 0);
  }

  /** The heading text is what follows the `#` run and the white space after
      it; it includes the later lines of the block. */
  lemma HeadingTextShape(block: string)
    requires StartsWith(block, "#")
    ensures var n := HashCount(block, 0);
      var text := HeadingText(block);
      n + |text| <= |block| && block[|block| - |text|..] == text
      && IsBlank(block[n..|block| - |text|])
      && (text != [] ==> !IsWhiteSpace(text[0]))
  {
    var n := HashCount(block, 0);
    assert block[0] == block[0..1][0];
    var rest := block[n..];
    TrimStartShape(rest);
    var text := TrimStart(rest);
    assert rest[|rest| - |text|..] == block[|block| - |text|..];
    assert rest[..|rest| - |text|] == block[n..|block| - |text|];
  }

  /** The size class is missing beyond six `#`, and the template then writes
      `undefined` into the class attribute. */
  lemma DeepHeadingHasUndefinedClass(block: string)
    requires StartsWith(block, "#") && HashCount(block, 0) > 6
    ensures var n := NatToString(HashCount(block, 0));
      Fragment(block) == "<h" + n + " id=\"" + Slug(HeadingText(block)) + "\" class=\"" + "undefined"
        + HeadingStyle + "\">" + HeadingText(block) + ("</h" + n + ">")
  {
    assert SizeClass(HashCount(block, 0)) == None;
  }

  // ---------------------------------------------------------------------------
  // Properties of the whole content
  // ---------------------------------------------------------------------------

  /** A block that does not end in a line break cannot share a blank line
      with the separator after it. */
  lemma NoStraddleAfterBlock(a: string, b: string)
    requires a == [] || a[|a| - 1] != '\n'
    ensures NoStraddle(a, BlockSeparator, b)
  {
    forall j: nat | j < |a| < j + |BlockSeparator|
      ensures !MatchAt(a + BlockSeparator + b, BlockSeparator, j)
    {
      assert j == |a| - 1;
      assert (a + BlockSeparator + b)[j] == a[|a| - 1];
      assert BlockSeparator[0] == '\n';
    }
  }

  /** Blocks are well delimited when none holds a blank line and none but the
      last ends in a line break. */
  predicate Delimited(blocks: seq<string>)
  {
    (forall k :: 0 <= k < |blocks| ==> !Includes(blocks[k], BlockSeparator))
    && forall k :: 0 <= k < |blocks| - 1 ==> blocks[k] == [] || blocks[k][|blocks[k]| - 1] != '\n'
  }

  /** Joining well delimited blocks with blank lines and splitting the result
      at blank lines gives the blocks back. */
  lemma {:induction false} SplitJoinedBlocks(blocks: seq<string>)
    requires |blocks| >= 1 && Delimited(blocks)
    ensures Split(Join(blocks, BlockSeparator), BlockSeparator) == blocks
    decreases |blocks|
  {
    if |blocks| == 1 {
      SplitNone(blocks[0], BlockSeparator);
    } else {
      var rest := blocks[1..];
      assert Delimited(rest) by {
        forall k | 0 <= k < |rest| ensures rest[k] == blocks[k + 1] { }
      }
      SplitJoinedBlocks(rest);
      NoStraddleAfterBlock(blocks[0], Join(rest, BlockSeparator));
      SplitAppend(blocks[0], BlockSeparator, Join(rest, BlockSeparator));
      SplitNone(blocks[0], BlockSeparator);
      assert [blocks[0]] + rest == blocks;
    }
  }

  /** The fragments of the blocks, concatenated in order. */
  function RenderBlocks(blocks: seq<string>): string
  {
    if blocks == [] then "" else Fragment(blocks[0]) + RenderBlocks(blocks[1..])
  }

  lemma {:induction false} JoinFragments(blocks: seq<string>)
    ensures Join(Fragments(blocks), "") == RenderBlocks(blocks)
    decreases |blocks|
  {
    if blocks != [] {
      JoinFragments(blocks[1..]);
      assert Fragments(blocks) == [Fragment(blocks[0])] + Fragments(blocks[1..]);
      ConcatCons(Fragment(blocks[0]), Fragments(blocks[1..]));
    }
  }

  /** Rendering content made of well delimited blocks yields exactly one
      fragment per block, in the order of the blocks. */
  lemma RenderJoinedBlocks(blocks: seq<string>)
    requires |blocks| >= 1 && Delimited(blocks)
    ensures ProcessContent(Join(blocks, BlockSeparator)) == RenderBlocks(blocks)
  {
    SplitJoinedBlocks(blocks);
    JoinFragments(blocks);
  }

  /** A block without a blank line, placed before a blank line, is rendered
      first and on its own. */
  lemma ProcessContentCons(a: string, b: string)
    requires !Includes(a, BlockSeparator) && (a == [] || a[|a| - 1] != '\n')
    ensures ProcessContent(a + BlockSeparator + b) == Fragment(a) + ProcessContent(b)
  {
    NoStraddleAfterBlock(a, b);
    SplitAppend(a, BlockSeparator, b);
    SplitNone(a, BlockSeparator);
    var rest := Split(b, BlockSeparator);
    assert Fragments([a] + rest) == [Fragment(a)] + Fragments(rest);
    ConcatCons(Fragment(a), Fragments(rest));
  }

  /** Content that opens with a line break, and not with a blank line, has a
      first block that opens with that line break: it renders as a paragraph
      even when a heading line follows. */
  lemma LeadingNewlineMakesParagraph(content: string)
    requires |content| >= 2 && content[0] == '\n' && content[1] != '\n'
    ensures var first := Split(content, BlockSeparator)[0];
      first != [] && first[0] == '\n' && Fragment(first) == ParagraphOpen + first + ParagraphClose
  {
    assert !MatchAt(content, BlockSeparator, 0) by {
      assert content[0..2][1] == content[1];
    }
    var first := Split(content, BlockSeparator)[0];
    match IndexOf(content, BlockSeparator, 0)
    case None =>
    case Some(i) =>
      assert first == content[..i];
      assert first[0] == content[0];
  }

  // ---------------------------------------------------------------------------
  // Heading ids here and in the table of contents
  // ---------------------------------------------------------------------------

  /** A heading line: 1 to 3 `#`, a space, and text on one line with no white
      space at either end. */
  predicate TocHeadingLine(level: nat, text: string)
  {
    1 <= level <= 3 && |text| > 0
    && (forall i :: 0 <= i < |text| ==> !IsLineTerminator(text[i]))
    && !IsWhiteSpace(text[0]) && !IsWhiteSpace(text[|text| - 1])
  }

  /** White space at neither end: trimming changes nothing. */
  lemma TrimmedText(text: string)
    requires |text| > 0 && !IsWhiteSpace(text[0]) && !IsWhiteSpace(text[|text| - 1])
    ensures Trim(text) == text && TrimStart(text) == text
  {
  }

  /** The table of contents matches a heading line at its start and captures
      the line's text. */
  lemma TocMatchOfLine(level: nat, text: string, after: string)
    requires TocHeadingLine(level, text)
    requires after == [] || IsLineTerminator(after[0])
    ensures var block := Hashes(level) + " " + text + after;
      HeadingAt(block, 0) == Some(HeadingMatch(0, level, text, level + 1 + |text|))
  {
    var block := Hashes(level) + " " + text + after;
    assert forall i :: 0 <= i < level ==> block[i] == Hashes(level)[i];
    assert block[level] == ' ';
    HashCountIs(block, 0, level);
    forall i | level + 1 <= i < level + 1 + |text| ensures block[i] == text[i - level - 1] { }
    WhiteEndIs(block, level, level + 1);
    LineEndIs(block, level + 1, level + 1 + |text|);
    assert block[level + 1..level + 1 + |text|] == text;
  }

  /** The renderer reads the level and text of a heading line as the table of
      contents does. */
  lemma RenderedHeadingOfLine(level: nat, text: string, after: string)
    requires TocHeadingLine(level, text)
    ensures var block := Hashes(level) + " " + text + after;
      StartsWith(block, "#") && HeadingLevel(block) == level && HeadingText(block) == text + after
  {
    var block := Hashes(level) + " " + text + after;
    assert block[0..1] == "#";
    assert forall i :: 0 <= i < level ==> block[i] == Hashes(level)[i];
    assert block[level] == ' ';
    HashCountIs(block, 0, level);
    assert block[level..] == [' '] + (text + after);
    assert TrimStart([' '] + (text + after)) == TrimStart(text + after) by {
      assert ([' '] + (text + after))[1..] == text + after;
    }
    assert (text + after)[0] == text[0];
  }

  /** A block that is a single heading line gives the table of contents one
      entry, with the level, text and id the renderer gives the heading. */
  lemma LoneHeadingIdsAgree(level: nat, text: string)
    requires TocHeadingLine(level, text)
    ensures var block := Hashes(level) + " " + text;
      Headings(block) == [TocItem(Slug(HeadingText(block)), HeadingText(block), HeadingLevel(block))]
  {
    var block := Hashes(level) + " " + text;
    assert block == Hashes(level) + " " + text + [];
    TocMatchOfLine(level, text, []);
    var m := HeadingMatch(0, level, text, level + 1 + |text|);
    assert m.end == |block|;
    assert NextMatch(block, 0) == Some(m);
    assert !LineStart(block, |block|) by {
      assert block[|block| - 1] == text[|text| - 1];
    }
    assert HeadingsFrom(block, |block|) == [];
    assert Headings(block) == [ToItem(m)];
    TrimmedText(text);
    assert ToItem(m) == TocItem(Slug(text), text, level);
    RenderedHeadingOfLine(level, text, []);
    assert HeadingText(block) == text && HeadingLevel(block) == level;
  }

  /** Extra letters or digits change a slug. */
  lemma SlugGrowsWithLetters(a: string, b: string, i: nat)
    requires i < |b| && IsSlugChar(LowerChar(b[i]))
    ensures Slug(a + b) != Slug(a)
  {
    SlugKeepsLettersAndDigits(a + b);
    SlugKeepsLettersAndDigits(a);
    LowerAppend(a, b);
    FilterAppend(ToLowerCase(a), ToLowerCase(b), IsSlugChar);
    assert ToLowerCase(b)[i] == LowerChar(b[i]);
    FilterMembership(ToLowerCase(b), IsSlugChar, LowerChar(b[i]));
    assert |Filter(Slug(a + b), IsSlugChar)| > |Filter(Slug(a), IsSlugChar)|;
  }

  /** When more lines follow a heading line in its block, the renderer's id
      takes them in while the table of contents' id does not: the two ids
      differ as soon as the later lines hold a letter or digit. */
  lemma FollowedHeadingIdsDisagree(level: nat, text: string, more: string, i: nat)
    requires TocHeadingLine(level, text)
    requires i < |more| && IsSlugChar(LowerChar(more[i]))
    ensures var block := Hashes(level) + " " + text + ("\n" + more);
      |Headings(block)| > 0 && Headings(block)[0] == TocItem(Slug(text), text, level)
      && HeadingText(block) == text + ("\n" + more)
      && Slug(HeadingText(block)) != Headings(block)[0].id
  {
    var block := Hashes(level) + " " + text + ("\n" + more);
    TocMatchOfLine(level, text, "\n" + more);
    RenderedHeadingOfLine(level, text, "\n" + more);
    TrimmedText(text);
    var m := HeadingMatch(0, level, text, level + 1 + |text|);
    assert NextMatch(block, 0) == Some(m);
    assert Headings(block) == [ToItem(m)] + HeadingsFrom(block, m.end);
    SlugGrowsWithLetters(text, "\n" + more, i + 1);
  }
}
