/**
 * The table of contents beside a post: every match of the multi-line pattern
 * `^(#{1,3})\s+(.+)$` in the post's markdown becomes an entry with the
 * heading level, the trimmed text and its slug as id. The component renders
 * nothing when no entry was found.
 *
 * The pattern is modelled exactly for this one regular expression: `^` and
 * `$` match at the ends of the input and next to line terminators, `\s` is
 * white space including line terminators, `.` is any character but a line
 * terminator, and the quantifiers backtrack as ECMAScript's do.
 */
module TableOfContents {
  import opened Wrappers
  import opened JsString
  import opened HeadingSlug

  /** One entry of the table. */
  datatype TocItem = TocItem(id: string, text: string, level: nat)

  /** A match of the heading pattern: where it starts, the length of the `#`
      group, the second capture and where the match ends. */
  datatype HeadingMatch = HeadingMatch(start: nat, level: nat, capture: string, end: nat)

  // ---------------------------------------------------------------------------
  // Scanning helpers
  // ---------------------------------------------------------------------------

  /** `^` in multi-line mode. */
  predicate LineStart(content: string, p: nat)
  {
    p == 0 || (0 < p <= |content| && IsLineTerminator(content[p - 1]))
  }

  /** The number of `#` characters from position `p` on. */
  function HashCount(content: string, p: nat): (n: nat)
    requires p <= |content|
    ensures p + n <= |content|
    decreases |content| - p
  {
    if p < |content| && content[p] == '#' then 1 + HashCount(content, p + 1) else 0
  }

  /** The end of the white-space run that starts at `q`. */
  function WhiteEnd(content: string, q: nat): (e: nat)
    requires q <= |content|
    ensures q <= e <= |content|
    decreases |content| - q
  {
    if q < |content| && IsWhiteSpace(content[q]) then WhiteEnd(content, q + 1) else q
  }

  /** Where the line holding position `j` ends: `.+` followed by `$`. */
  function LineEnd(content: string, j: nat): (e: nat)
    requires j <= |content|
    ensures j <= e <= |content|
    decreases |content| - j
  {
    if j < |content| && !IsLineTerminator(content[j]) then LineEnd(content, j + 1) else j
  }

  /** The last position in `[lo, hi)` that is not a line terminator. */
  function LastOrdinary(content: string, lo: nat, hi: nat): (r: Option<nat>)
    requires hi <= |content|
    ensures r.Some? ==> lo <= r.value < hi
    decreases hi
  {
    if hi <= lo then None
    else if !IsLineTerminator(content[hi - 1]) then Some(hi - 1)
    else LastOrdinary(content, lo, hi - 1)
  }

  /** `HashCount` counts the whole run of `#`. */
  lemma {:induction false} HashRun(content: string, p: nat)
    requires p <= |content|
    ensures forall i :: p <= i < p + HashCount(content, p) ==> content[i] == '#'
    ensures p + HashCount(content, p) == |content| || content[p + HashCount(content, p)] != '#'
    decreases |content| - p
  {
    if p < |content| && content[p] == '#' {
      HashRun(content, p + 1);
    }
  }

  /** `WhiteEnd` ends the whole white-space run. */
  lemma {:induction false} WhiteRun(content: string, q: nat)
    requires q <= |content|
    ensures forall i :: q <= i < WhiteEnd(content, q) ==> IsWhiteSpace(content[i])
    ensures WhiteEnd(content, q) == |content| || !IsWhiteSpace(content[WhiteEnd(content, q)])
    decreases |content| - q
  {
    if q < |content| && IsWhiteSpace(content[q]) {
      WhiteRun(content, q + 1);
    }
  }

  /** `LineEnd` stops at the first line terminator or at the end. */
  lemma {:induction false} LineRun(content: string, j: nat)
    requires j <= |content|
    ensures forall i :: j <= i < LineEnd(content, j) ==> !IsLineTerminator(content[i])
    ensures LineEnd(content, j) == |content| || IsLineTerminator(content[LineEnd(content, j)])
    decreases |content| - j
  {
    if j < |content| && !IsLineTerminator(content[j]) {
      LineRun(content, j + 1);
    }
  }

  /** `LastOrdinary` finds the last such position, or there is none. */
  lemma {:induction false} LastOrdinaryIsLast(content: string, lo: nat, hi: nat)
    requires hi <= |content|
    ensures var r := LastOrdinary(content, lo, hi);
      (r.Some? ==> !IsLineTerminator(content[r.value]) && forall i :: r.value < i < hi ==> IsLineTerminator(content[i]))
      && (r.None? ==> forall i :: lo <= i < hi ==> IsLineTerminator(content[i]))
    decreases hi
  {
    if lo < hi && IsLineTerminator(content[hi - 1]) {
      LastOrdinaryIsLast(content, lo, hi - 1);
    }
  }

  /** A run of exactly `k` `#` at `p` is what `HashCount` counts. */
  lemma {:induction false} HashCountIs(content: string, p: nat, k: nat)
    requires p + k <= |content|
    requires forall i :: p <= i < p + k ==> content[i] == '#'
    requires p + k == |content| || content[p + k] != '#'
    ensures HashCount(content, p) == k
    decreases k
  {
    if k > 0 {
      HashCountIs(content, p + 1, k - 1);
    }
  }

  /** A white-space run ending at `e` is where `WhiteEnd` stops. */
  lemma {:induction false} WhiteEndIs(content: string, q: nat, e: nat)
    requires q <= e <= |content|
    requires forall i :: q <= i < e ==> IsWhiteSpace(content[i])
    requires e == |content| || !IsWhiteSpace(content[e])
    ensures WhiteEnd(content, q) == e
    decreases e - q
  {
    if q < e {
      WhiteEndIs(content, q + 1, e);
    }
  }

  /** A stretch free of line terminators ending at `e` is where `LineEnd`
      stops. */
  lemma {:induction false} LineEndIs(content: string, j: nat, e: nat)
    requires j <= e <= |content|
    requires forall i :: j <= i < e ==> !IsLineTerminator(content[i])
    requires e == |content| || IsLineTerminator(content[e])
    ensures LineEnd(content, j) == e
    decreases e - j
  {
    if j < e {
      LineEndIs(content, j + 1, e);
    }
  }

  // ---------------------------------------------------------------------------
  // The pattern and the `exec` loop
  // ---------------------------------------------------------------------------

  /** The heading pattern tried at position `p`. The `#` group takes every
      `#` there (fewer would leave a `#` where `\s` is needed), so four or
      more fail. `\s+` takes the whole white-space run; when that run reaches
      the end of the input it gives back characters until `.+` can match one
      that is not a line terminator. */
  function HeadingAt(content: string, p: nat): (r: Option<HeadingMatch>)
    requires p <= |content|
    ensures r.Some? ==> r.value.start == p && p < r.value.end <= |content|
  {
    var n := HashCount(content, p);
    if !LineStart(content, p) || n < 1 || 3 < n then None
    else
      var q := p + n;
      var e := WhiteEnd(content, q);
      if e == q then None
      else if e < |content| then
        var end := LineEnd(content, e);
        Some(HeadingMatch(p, n, content[e..end], end))
      else
        match LastOrdinary(content, q + 1, e)
        case None => None
        case Some(j) =>
          var end := LineEnd(content, j);
          Some(HeadingMatch(p, n, content[j..end], end))
  }

  /** A match starts a line with one to three `#` followed by white space,
      ends a line, and captures a non-empty rest of a line. */
  lemma MatchShape(content: string, p: nat)
    requires p <= |content|
    ensures var r := HeadingAt(content, p);
      r.Some? ==> (LineStart(content, p)
      && r.value.level == HashCount(content, p) && 1 <= r.value.level <= 3
      && p + r.value.level < r.value.end && IsWhiteSpace(content[p + r.value.level])
      && 0 < |r.value.capture| <= r.value.end - p - r.value.level - 1
      && r.value.capture == content[r.value.end - |r.value.capture|..r.value.end]
      && (r.value.end == |content| || IsLineTerminator(content[r.value.end]))
      && forall i :: 0 <= i < |r.value.capture| ==> !IsLineTerminator(r.value.capture[i]))
  {
    var n := HashCount(content, p);
    var r := HeadingAt(content, p);
    if r.Some? {
      var q := p + n;
      var e := WhiteEnd(content, q);
      WhiteRun(content, q);
      assert IsWhiteSpace(content[q]);
      var j: nat;
      if e < |content| {
        j := e;
      } else {
        LastOrdinaryIsLast(content, q + 1, e);
        j := LastOrdinary(content, q + 1, e).value;
      }
      assert q < j < |content| && !IsLineTerminator(content[j]);
      var end := LineEnd(content, j);
      assert r.value == HeadingMatch(p, n, content[j..end], end);
      LineRun(content, j);
      CaptureShape(content, j, end);
    }
  }

  /** The rest of a line from a position that is not a line terminator. */
  lemma CaptureShape(content: string, j: nat, end: nat)
    requires j < |content| && !IsLineTerminator(content[j]) && end == LineEnd(content, j)
    requires forall i :: j <= i < end ==> !IsLineTerminator(content[i])
    ensures j < end
    ensures forall i :: 0 <= i < |content[j..end]| ==> !IsLineTerminator(content[j..end][i])
  {
  }

  /** The pattern matches at a line start with one to three `#` exactly when
      white space follows them and either stops before the end of the input or
      runs to it past a character that is not a line terminator. */
  lemma MatchExistsIff(content: string, p: nat)
    requires p <= |content|
    ensures var n := HashCount(content, p);
      HeadingAt(content, p).Some? <==> (LineStart(content, p) && 1 <= n <= 3
      && ((p + n < WhiteEnd(content, p + n) < |content|)
        || exists j :: p + n < j < |content| && IsBlank(content[p + n..]) && !IsLineTerminator(content[j])))
  {
    var n := HashCount(content, p);
    if LineStart(content, p) && 1 <= n <= 3 {
      var q := p + n;
      var e := WhiteEnd(content, q);
      WhiteRun(content, q);
      LastOrdinaryIsLast(content, q + 1, e);
      if e == |content| {
        assert IsBlank(content[q..]) by {
          forall i | 0 <= i < |content[q..]| ensures IsWhiteSpace(content[q..][i]) {
            assert content[q..][i] == content[q + i];
          }
        }
      } else {
        assert !IsBlank(content[q..]) by {
          assert content[q..][e - q] == content[e];
        }
      }
    }
  }

  /** `regex.exec(content)` with `lastIndex` at `from`: the first position at
      or after `from` where the pattern matches. */
  function NextMatch(content: string, from: nat): (r: Option<HeadingMatch>)
    requires from <= |content|
    ensures r.Some? ==> (from <= r.value.start <= |content| && HeadingAt(content, r.value.start) == r
      && forall p :: from <= p < r.value.start ==> HeadingAt(content, p).None?)
    ensures r.None? ==> forall p :: from <= p <= |content| ==> HeadingAt(content, p).None?
    decreases |content| - from
  {
    var here := HeadingAt(content, from);
    if here.Some? then here
    else if from == |content| then None
    else NextMatch(content, from + 1)
  }

  /** The successive matches from `from` on, each search resuming where the
      previous match ended. */
  function MatchesFrom(content: string, from: nat): (ms: seq<HeadingMatch>)
    requires from <= |content|
    ensures forall i :: 0 <= i < |ms| ==> from <= ms[i].start <= |content| && HeadingAt(content, ms[i].start) == Some(ms[i])
    ensures forall i, j :: 0 <= i < j < |ms| ==> ms[i].end <= ms[j].start
    decreases |content| - from
  {
    match NextMatch(content, from)
    case None => []
    case Some(m) =>
      var rest := MatchesFrom(content, m.end);
      var ms := [m] + rest;
      assert forall i :: 0 < i < |ms| ==> ms[i] == rest[i - 1];
      ms
  }

  /** The entry a match produces. */
  function ToItem(m: HeadingMatch): (r: TocItem)
    ensures IsSlug(r.id) && r.id == Slug(r.text)
    ensures r.level == m.level
  {
    var text := Trim(m.capture);
    TocItem(Slug(text), text, m.level)
  }

  function Entries(ms: seq<HeadingMatch>): (r: seq<TocItem>)
    ensures |r| == |ms|
    ensures forall i :: 0 <= i < |ms| ==> r[i] == ToItem(ms[i])
  {
    if ms == [] then [] else [ToItem(ms[0])] + Entries(ms[1..])
  }

  /** The entries of the matches from `from` on. */
  function HeadingsFrom(content: string, from: nat): (r: seq<TocItem>)
    requires from <= |content|
    ensures forall i :: 0 <= i < |r| ==> 1 <= r[i].level <= 3 && IsSlug(r[i].id)
    decreases |content| - from
  {
    match NextMatch(content, from)
    case None => []
    case Some(m) =>
      MatchShape(content, m.start);
      [ToItem(m)] + HeadingsFrom(content, m.end)
  }

  /** The entries of the whole content: levels 1 to 3, slug ids. */
  function Headings(content: string): (r: seq<TocItem>)
    ensures forall i :: 0 <= i < |r| ==> 1 <= r[i].level <= 3 && IsSlug(r[i].id)
  {
    HeadingsFrom(content, 0)
  }

  /** The entries are those of the successive matches. */
  lemma {:induction false} HeadingsAreEntries(content: string, from: nat)
    requires from <= |content|
    ensures HeadingsFrom(content, from) == Entries(MatchesFrom(content, from))
    decreases |content| - from
  {
    match NextMatch(content, from)
    case None =>
    case Some(m) =>
      HeadingsAreEntries(content, m.end);
      var rest := MatchesFrom(content, m.end);
      assert MatchesFrom(content, from) == [m] + rest;
      assert ([m] + rest)[1..] == rest;
  }

  /** One step of the loop: the entry of the next match moves from the
      remaining headings to those already pushed. */
  lemma HeadingsFromStep(content: string, from: nat, done: seq<TocItem>)
    requires from <= |content| && NextMatch(content, from).Some?
    ensures var m := NextMatch(content, from).value;
      m.end <= |content|
      && done + HeadingsFrom(content, from) == (done + [ToItem(m)]) + HeadingsFrom(content, m.end)
  {
    var m := NextMatch(content, from).value;
    assert HeadingsFrom(content, from) == [ToItem(m)] + HeadingsFrom(content, m.end);
  }

  /** The extraction loop of the component's effect. */
  method ExtractHeadings(content: string) returns (headings: seq<TocItem>)
    ensures headings == Headings(content)
  {
    headings := [];
    var lastIndex := 0;
    var found := NextMatch(content, lastIndex);
    while found.Some?
      invariant lastIndex <= |content|
      invariant found == NextMatch(content, lastIndex)
      invariant headings + HeadingsFrom(content, lastIndex) == Headings(content)
      decreases |content| - lastIndex
    {
      var m := found.value;
      HeadingsFromStep(content, lastIndex, headings);
      headings := headings + [ToItem(m)];
      lastIndex := m.end;
      found := NextMatch(content, lastIndex);
    }
  }

  // ---------------------------------------------------------------------------
  // Properties
  // ---------------------------------------------------------------------------

  /** Each entry has level 1 to 3, the trimmed capture of a line-start match
      as text, and the slug of that text as id. */
  lemma EntriesComeFromMatches(content: string, k: nat)
    requires k < |MatchesFrom(content, 0)|
    ensures |Headings(content)| == |MatchesFrom(content, 0)|
    ensures var e := Headings(content)[k];
      var m := MatchesFrom(content, 0)[k];
      1 <= e.level <= 3 && e.level == m.level && LineStart(content, m.start)
      && e.text == Trim(m.capture) && e.id == Slug(e.text) && IsSlug(e.id)
  {
    HeadingsAreEntries(content, 0);
    MatchShape(content, MatchesFrom(content, 0)[k].start);
  }

  /** A line that starts with four or more `#` yields no entry. */
  lemma FourHashesNoEntry(content: string, p: nat)
    requires p <= |content| && HashCount(content, p) >= 4
    ensures HeadingAt(content, p).None?
    ensures forall m :: m in MatchesFrom(content, 0) ==> m.start != p
  {
  }

  /** A search from `from` finds a match no later than any position where
      the pattern matches. */
  lemma NextMatchNoLater(content: string, from: nat, p: nat)
    requires from <= p <= |content| && HeadingAt(content, p).Some?
    ensures NextMatch(content, from).Some? && NextMatch(content, from).value.start <= p
  {
  }

  /** The matches from `from` are the next match followed by the matches
      after it. */
  lemma MatchesFromCons(content: string, from: nat, m: HeadingMatch)
    requires from <= |content| && NextMatch(content, from) == Some(m)
    ensures m.end <= |content|
    ensures MatchesFrom(content, from) == [m] + MatchesFrom(content, m.end)
  {
  }

  /** No heading is skipped: every position where the pattern matches lies
      in the span of a found match, which starts there unless an earlier match
      (one whose white space crossed a line) already covers it. */
  lemma {:induction false} NoMatchSkipped(content: string, from: nat, p: nat)
    requires from <= p <= |content| && HeadingAt(content, p).Some?
    ensures var ms := MatchesFrom(content, from);
      exists i :: 0 <= i < |ms| && ms[i].start <= p < ms[i].end
    decreases |content| - from
  {
    NextMatchNoLater(content, from, p);
    var m := NextMatch(content, from).value;
    MatchesFromCons(content, from, m);
    var rest := MatchesFrom(content, m.end);
    var ms := MatchesFrom(content, from);
    if p < m.end {
      assert ms[0].start <= p < ms[0].end;
    } else {
      NoMatchSkipped(content, m.end, p);
      var i :| 0 <= i < |rest| && rest[i].start <= p < rest[i].end;
      assert ms[i + 1] == rest[i];
    }
  }

  // ---------------------------------------------------------------------------
  // The component's state
  // ---------------------------------------------------------------------------

  /** The component with its `toc` and `activeId` state. */
  class TableOfContentsState {
    var toc: seq<TocItem>
    var activeId: string

    constructor ()
      ensures toc == [] && activeId == ""
    {
      toc := [];
      activeId := "";
    }

    /** The effect that runs when `content` changes. */
    method LoadContent(content: string)
      modifies this
      ensures toc == Headings(content) && activeId == old(activeId)
    {
      var headings := ExtractHeadings(content);
      toc := headings;
    }

    /** The observer callback for a heading that scrolls into view. */
    method SetActive(id: string)
      modifies this
      ensures activeId == id && toc == old(toc)
    {
      activeId := id;
    }

    /** The rendered list of entries, or `None` when the component renders
        nothing. */
    function Render(): (r: Option<seq<TocItem>>)
      reads this
      ensures r.None? <==> |toc| == 0
      ensures r.Some? ==> r.value == toc
    {
      if |toc| == 0 then None else Some(toc)
    }
  }
}
