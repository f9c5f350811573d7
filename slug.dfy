/**
 * The heading id shared by the table of contents and the post renderer:
 * lower-case the text, replace every maximal run of characters outside
 * `[a-z0-9]` by one `-`, then remove one leading and one trailing `-`.
 */
module HeadingSlug {
  import opened JsString
  import opened Seqs

  /** The class `[a-z0-9]`. */
  predicate IsSlugChar(c: char)
  {
    IsLower(c) || IsDigit(c)
  }

  /** Every character is in `[a-z0-9]` or is `-`. */
  predicate InSlugAlphabet(s: string)
  {
    forall i :: 0 <= i < |s| ==> IsSlugChar(s[i]) || s[i] == '-'
  }

  /** No `-` is directly followed by another. */
  predicate NoDoubleDash(s: string)
  {
    forall i :: 0 <= i < |s| - 1 ==> s[i] != '-' || s[i + 1] != '-'
  }

  /** What a slug looks like: the alphabet, no `--`, no dash at either end. */
  predicate IsSlug(s: string)
  {
    InSlugAlphabet(s) && NoDoubleDash(s) && (|s| > 0 ==> s[0] != '-' && s[|s| - 1] != '-')
  }

  /** Drops the leading characters outside `[a-z0-9]`. */
  function SkipRun(s: string): (r: string)
    ensures |r| <= |s| && r == s[|s| - |r|..]
    ensures r != [] ==> IsSlugChar(r[0])
    ensures forall i :: 0 <= i < |s| - |r| ==> !IsSlugChar(s[i])
    decreases |s|
  {
    if s != [] && !IsSlugChar(s[0]) then SkipRun(s[1..]) else s
  }

  /** `replace(/[^a-z0-9]+/g, '-')`. */
  function Collapse(s: string): (r: string)
    ensures InSlugAlphabet(r) && NoDoubleDash(r)
    ensures |r| == 0 <==> |s| == 0
    ensures |s| > 0 && IsSlugChar(s[0]) ==> r[0] == s[0]
    ensures |s| > 0 && !IsSlugChar(s[0]) ==> r[0] == '-'
    decreases |s|
  {
    if s == [] then []
    else if IsSlugChar(s[0]) then [s[0]] + Collapse(s[1..])
    else "-" + Collapse(SkipRun(s[1..]))
  }

  /** `replace(/(^-|-$)/g, '')`: one dash off each end. */
  function StripDashes(s: string): (r: string)
    ensures |r| <= |s| <= |r| + 2
    ensures r == s[..|r|] || (|r| < |s| && r == s[1..|r| + 1])
    ensures (|s| == 0 || (s[0] != '-' && s[|s| - 1] != '-')) ==> r == s
  {
    var t := if |s| > 0 && s[0] == '-' then s[1..] else s;
    if |t| > 0 && t[|t| - 1] == '-' then t[..|t| - 1] else t
  }

  /** The id of a heading with the given text: always a slug, made of
      `[a-z0-9]` runs joined by single dashes. */
  function Slug(text: string): (r: string)
    ensures IsSlug(r)
  {
    StripMakesSlug(Collapse(ToLowerCase(text)));
    StripDashes(Collapse(ToLowerCase(text)))
  }

  // ---------------------------------------------------------------------------
  // Properties
  // ---------------------------------------------------------------------------

  /** Removing one dash from each end of a string of the alphabet without
      `--` leaves a slug. */
  lemma StripMakesSlug(s: string)
    requires InSlugAlphabet(s) && NoDoubleDash(s)
    ensures IsSlug(StripDashes(s))
  {
    var t := if |s| > 0 && s[0] == '-' then s[1..] else s;
    assert InSlugAlphabet(t) && NoDoubleDash(t) by {
      if |s| > 0 && s[0] == '-' {
        assert forall i :: 0 <= i < |t| ==> t[i] == s[i + 1];
      }
    }
    assert |t| > 0 ==> t[0] != '-' by {
      if |t| > 0 && |s| > 0 && s[0] == '-' {
        assert s[1] == t[0];
      }
    }
    if |t| > 0 && t[|t| - 1] == '-' {
      var u := t[..|t| - 1];
      assert forall i :: 0 <= i < |u| ==> u[i] == t[i];
      assert |u| > 0 ==> u[|u| - 1] == t[|t| - 2];
    }
  }

  /** The run `SkipRun` passes over holds no letter or digit. */
  lemma {:induction false} SkipRunKeepsLettersAndDigits(s: string)
    ensures Filter(SkipRun(s), IsSlugChar) == Filter(s, IsSlugChar)
    decreases |s|
  {
    if s != [] && !IsSlugChar(s[0]) {
      SkipRunKeepsLettersAndDigits(s[1..]);
      FilterCons(s[0], s[1..], IsSlugChar);
      assert s == [s[0]] + s[1..];
    }
  }

  /** Collapsing keeps the letters and digits, in order. */
  lemma {:induction false} CollapseKeepsLettersAndDigits(s: string)
    ensures Filter(Collapse(s), IsSlugChar) == Filter(s, IsSlugChar)
    decreases |s|
  {
    if s != [] {
      FilterCons(s[0], s[1..], IsSlugChar);
      assert s == [s[0]] + s[1..];
      if IsSlugChar(s[0]) {
        CollapseKeepsLettersAndDigits(s[1..]);
        assert Collapse(s) == [s[0]] + Collapse(s[1..]);
        FilterCons(s[0], Collapse(s[1..]), IsSlugChar);
      } else {
        var rest := SkipRun(s[1..]);
        SkipRunKeepsLettersAndDigits(s[1..]);
        CollapseKeepsLettersAndDigits(rest);
        assert Collapse(s) == "-" + Collapse(rest);
        FilterCons('-', Collapse(rest), IsSlugChar);
      }
    }
  }

  /** Removing edge dashes keeps the letters and digits. */
  lemma StripKeepsLettersAndDigits(s: string)
    ensures Filter(StripDashes(s), IsSlugChar) == Filter(s, IsSlugChar)
  {
    var t := if |s| > 0 && s[0] == '-' then s[1..] else s;
    if |s| > 0 && s[0] == '-' {
      FilterCons('-', t, IsSlugChar);
      assert s == ['-'] + t;
    }
    if |t| > 0 && t[|t| - 1] == '-' {
      FilterAppend(t[..|t| - 1], ['-'], IsSlugChar);
      assert t == t[..|t| - 1] + ['-'];
      assert Filter(['-'], IsSlugChar) == [];
    }
  }

  /** The slug holds exactly the letters and digits of the lower-cased text,
      in order; everything else became dashes. */
  lemma SlugKeepsLettersAndDigits(text: string)
    ensures Filter(Slug(text), IsSlugChar) == Filter(ToLowerCase(text), IsSlugChar)
  {
    CollapseKeepsLettersAndDigits(ToLowerCase(text));
    StripKeepsLettersAndDigits(Collapse(ToLowerCase(text)));
  }

  /** Lower-casing leaves the slug alphabet alone. */
  lemma LowerOfAlphabet(s: string)
    requires InSlugAlphabet(s)
    ensures ToLowerCase(s) == s
  {
  }

  /** Collapsing changes nothing in a string of the alphabet without `--`. */
  lemma {:induction false} CollapseOfCollapsed(s: string)
    requires InSlugAlphabet(s) && NoDoubleDash(s)
    ensures Collapse(s) == s
    decreases |s|
  {
    if s != [] {
      var tail := s[1..];
      assert InSlugAlphabet(tail) && NoDoubleDash(tail) by {
        forall i | 0 <= i < |tail| ensures IsSlugChar(tail[i]) || tail[i] == '-' {
          assert tail[i] == s[i + 1];
        }
        forall i | 0 <= i < |tail| - 1 ensures tail[i] != '-' || tail[i + 1] != '-' {
          assert tail[i] == s[i + 1] && tail[i + 1] == s[i + 2];
        }
      }
      CollapseOfCollapsed(tail);
      if !IsSlugChar(s[0]) {
        assert tail != [] ==> tail[0] == s[1] && IsSlugChar(tail[0]);
        assert SkipRun(tail) == tail;
      }
      assert s == [s[0]] + tail;
    }
  }

  /** A string is its own slug exactly when it is a slug. */
  lemma SlugFixpointIff(s: string)
    ensures Slug(s) == s <==> IsSlug(s)
  {
    if IsSlug(s) {
      LowerOfAlphabet(s);
      CollapseOfCollapsed(s);
    }
  }

  /** Slugging a slug changes nothing. */
  lemma SlugIdempotent(text: string)
    ensures Slug(Slug(text)) == Slug(text)
  {
    SlugFixpointIff(Slug(text));
  }
}
