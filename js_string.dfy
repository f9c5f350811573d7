/**
 * The part of ECMAScript's String built-ins that the blog front end relies on:
 * ASCII case mapping, `trim`, `includes`, `startsWith`, `indexOf`, `split` with
 * a string separator, `join`, number-to-string conversion and the truthiness
 * of an optional string. Strings are sequences of characters (`char`, a
 * Unicode scalar value).
 */
module JsString {
  import opened Wrappers

  // ---------------------------------------------------------------------------
  // Case mapping (ASCII letters only)
  // ---------------------------------------------------------------------------

  predicate IsUpper(c: char) { 'A' <= c <= 'Z' }
  predicate IsLower(c: char) { 'a' <= c <= 'z' }
  predicate IsDigit(c: char) { '0' <= c <= '9' }

  /** `c.toLowerCase()` restricted to the ASCII letters. */
  function LowerChar(c: char): char
  {
    if IsUpper(c) then (c as int + 32) as char else c
  }

  /** `c.toUpperCase()` restricted to the ASCII letters. */
  function UpperChar(c: char): char
  {
    if IsLower(c) then (c as int - 32) as char else c
  }

  /** `s.toLowerCase()`: maps every character, keeps the length. */
  function ToLowerCase(s: string): (r: string)
    ensures |r| == |s|
  {
    seq(|s|, i requires 0 <= i < |s| => LowerChar(s[i]))
  }

  /** `s.toUpperCase()`: maps every character, keeps the length. */
  function ToUpperCase(s: string): (r: string)
    ensures |r| == |s|
  {
    seq(|s|, i requires 0 <= i < |s| => UpperChar(s[i]))
  }

  lemma LowerAppend(a: string, b: string)
    ensures ToLowerCase(a + b) == ToLowerCase(a) + ToLowerCase(b)
  {
    assert forall i :: 0 <= i < |a + b| ==> ToLowerCase(a + b)[i] == (ToLowerCase(a) + ToLowerCase(b))[i];
  }

  lemma UpperAppend(a: string, b: string)
    ensures ToUpperCase(a + b) == ToUpperCase(a) + ToUpperCase(b)
  {
    assert forall i :: 0 <= i < |a + b| ==> ToUpperCase(a + b)[i] == (ToUpperCase(a) + ToUpperCase(b))[i];
  }

  /** Lower-casing twice is lower-casing once. */
  lemma LowerIdempotent(s: string)
    ensures ToLowerCase(ToLowerCase(s)) == ToLowerCase(s)
  {
  }

  // ---------------------------------------------------------------------------
  // White space: the ECMAScript WhiteSpace and LineTerminator code points,
  // which is both what `trim` removes and what the regular-expression class
  // `\s` matches.
  // ---------------------------------------------------------------------------

  predicate IsLineTerminator(c: char)
  {
    c == '\n' || c == '\r' || c == '\U{2028}' || c == '\U{2029}'
  }

  predicate IsWhiteSpace(c: char)
  {
    c == '\t' || c == '\U{000B}' || c == '\U{000C}' || c == ' ' || c == '\U{00A0}'
    || c == '\U{FEFF}' || c == '\U{1680}' || ('\U{2000}' <= c <= '\U{200A}')
    || c == '\U{202F}' || c == '\U{205F}' || c == '\U{3000}'
    || IsLineTerminator(c)
  }

  /** A string made only of white space (the empty string included). */
  predicate IsBlank(s: string)
  {
    forall i :: 0 <= i < |s| ==> IsWhiteSpace(s[i])
  }

  /** `s.trimStart()`. */
  function TrimStart(s: string): (r: string)
    ensures |r| <= |s|
    decreases |s|
  {
    if |s| > 0 && IsWhiteSpace(s[0]) then TrimStart(s[1..]) else s
  }

  /** `s.trimEnd()`. */
  function TrimEnd(s: string): (r: string)
    ensures |r| <= |s|
    decreases |s|
  {
    if |s| > 0 && IsWhiteSpace(s[|s| - 1]) then TrimEnd(s[..|s| - 1]) else s
  }

  /** `s.trim()`. */
  function Trim(s: string): string
  {
    TrimEnd(TrimStart(s))
  }

  /** `trimStart` keeps the longest suffix that does not start with white
      space. */
  lemma {:induction false} TrimStartShape(s: string)
    ensures var r := TrimStart(s);
      r == s[|s| - |r|..] && IsBlank(s[..|s| - |r|]) && (r != [] ==> !IsWhiteSpace(r[0]))
    decreases |s|
  {
    if |s| > 0 && IsWhiteSpace(s[0]) {
      TrimStartShape(s[1..]);
      var r := TrimStart(s);
      assert s[1..][|s| - 1 - |r|..] == s[|s| - |r|..];
      forall i | 0 <= i < |s| - |r| ensures IsWhiteSpace(s[i]) {
        if i > 0 {
          assert s[1..][..|s| - 1 - |r|][i - 1] == s[i];
        }
      }
    }
  }

  /** `trimEnd` keeps the longest prefix that does not end with white space. */
  lemma {:induction false} TrimEndShape(s: string)
    ensures var r := TrimEnd(s);
      r == s[..|r|] && IsBlank(s[|r|..]) && (r != [] ==> !IsWhiteSpace(r[|r| - 1]))
    decreases |s|
  {
    if |s| > 0 && IsWhiteSpace(s[|s| - 1]) {
      var t := s[..|s| - 1];
      TrimEndShape(t);
      var r := TrimEnd(s);
      assert t[..|r|] == s[..|r|];
      forall i | |r| <= i < |s| ensures IsWhiteSpace(s[i]) {
        if i < |s| - 1 {
          assert t[|r|..][i - |r|] == s[i];
        }
      }
    }
  }

  /** A string is empty after trimming exactly when it holds only white space. */
  lemma TrimEmptyIffBlank(s: string)
    ensures Trim(s) == [] <==> IsBlank(s)
  {
    var t := TrimStart(s);
    TrimStartShape(s);
    TrimEndShape(t);
    assert s == s[..|s| - |t|] + t;
    if Trim(s) == [] {
      assert t[0..] == t;
    }
  }

  // ---------------------------------------------------------------------------
  // Substring search
  // ---------------------------------------------------------------------------

  /** `q` occurs in `s` starting at position `i`. */
  predicate MatchAt(s: string, q: string, i: nat)
  {
    i + |q| <= |s| && s[i..i + |q|] == q
  }

  /** `s.includes(q)`. */
  predicate Includes(s: string, q: string)
  {
    exists i: nat | i <= |s| :: MatchAt(s, q, i)
  }

  /** A string that lacks one of the query's characters does not include it. */
  lemma AbsentLetterExcludes(s: string, q: string, c: char)
    requires c in q && c !in s
    ensures !Includes(s, q)
  {
    var k :| 0 <= k < |q| && q[k] == c;
    forall i: nat | i <= |s| ensures !MatchAt(s, q, i) {
      if i + |q| <= |s| {
        assert s[i..i + |q|][k] == s[i + k];
      }
    }
  }

  /** `s.startsWith(q)`. */
  predicate StartsWith(s: string, q: string)
  {
    MatchAt(s, q, 0)
  }

  /** `s.indexOf(q, from)`: the first position at or after `from` where `q` occurs. */
  function IndexOf(s: string, q: string, from: nat): (r: Option<nat>)
    ensures r.Some? ==> from <= r.value && MatchAt(s, q, r.value)
    ensures r.Some? ==> forall j: nat :: from <= j < r.value ==> !MatchAt(s, q, j)
    ensures r.None? ==> forall j: nat :: from <= j ==> !MatchAt(s, q, j)
    decreases |s| - from
  {
    if from + |q| > |s| then None
    else if MatchAt(s, q, from) then Some(from)
    else IndexOf(s, q, from + 1)
  }

  /** `includes` agrees with `indexOf` finding something. */
  lemma IncludesIffIndexOf(s: string, q: string)
    ensures Includes(s, q) <==> IndexOf(s, q, 0).Some?
  {
    var r := IndexOf(s, q, 0);
    if r.Some? {
      assert MatchAt(s, q, r.value);
    }
  }

  /** The empty string occurs in every string. */
  lemma IncludesEmpty(s: string)
    ensures Includes(s, "")
  {
    assert MatchAt(s, "", 0);
  }

  /** Every position an occurrence of `q` covers holds a character of `q`. */
  lemma CoveredInQuery(s: string, q: string, i: nat, p: nat)
    requires MatchAt(s, q, i) && i <= p < i + |q|
    ensures s[p] in q
  {
    assert s[i..i + |q|][p - i] == s[p];
  }

  /** An occurrence of `q` in `a + b` that cannot straddle the boundary (the
      last character of `a` does not occur in `q`) lies in `a` or in `b`. */
  lemma IncludesAppend(a: string, b: string, q: string)
    requires |a| > 0 && a[|a| - 1] !in q
    ensures Includes(a + b, q) <==> Includes(a, q) || Includes(b, q)
  {
    if Includes(a + b, q) {
      var i: nat :| i <= |a + b| && MatchAt(a + b, q, i);
      if i + |q| <= |a| {
        assert (a + b)[i..i + |q|] == a[i..i + |q|];
        assert MatchAt(a, q, i);
      } else if i >= |a| {
        assert (a + b)[i..i + |q|] == b[i - |a|..i - |a| + |q|];
        assert MatchAt(b, q, i - |a|);
      } else {
        CoveredInQuery(a + b, q, i, |a| - 1);
        assert false;
      }
    }
    if Includes(a, q) {
      var i: nat :| i <= |a| && MatchAt(a, q, i);
      assert (a + b)[i..i + |q|] == a[i..i + |q|];
      assert MatchAt(a + b, q, i);
    }
    if Includes(b, q) {
      var i: nat :| i <= |b| && MatchAt(b, q, i);
      assert (a + b)[|a| + i..|a| + i + |q|] == b[i..i + |q|];
      assert MatchAt(a + b, q, |a| + i);
    }
  }

  // ---------------------------------------------------------------------------
  // split / join
  // ---------------------------------------------------------------------------

  /** `s.split(sep)` for a non-empty string separator: the pieces between the
      successive leftmost non-overlapping occurrences of `sep`. */
  function Split(s: string, sep: string): (parts: seq<string>)
    requires |sep| > 0
    ensures |parts| >= 1
    decreases |s|
  {
    match IndexOf(s, sep, 0)
    case None => [s]
    case Some(i) => [s[..i]] + Split(s[i + |sep|..], sep)
  }

  /** `parts.join(sep)`. */
  function Join(parts: seq<string>, sep: string): string
    decreases |parts|
  {
    if |parts| == 0 then ""
    else if |parts| == 1 then parts[0]
    else parts[0] + sep + Join(parts[1..], sep)
  }

  /** `join('')` of a list that starts with one element. */
  lemma ConcatCons(x: string, rest: seq<string>)
    ensures Join([x] + rest, "") == x + Join(rest, "")
  {
    if |rest| == 0 {
      assert [x] + rest == [x];
    } else {
      JoinCons(x, rest, "");
    }
  }

  /** `join(sep)` of a list that starts with one element and goes on. */
  lemma JoinCons(a: string, rest: seq<string>, sep: string)
    requires |rest| >= 1
    ensures Join([a] + rest, sep) == a + sep + Join(rest, sep)
  {
    assert ([a] + rest)[1..] == rest;
  }

  /** A string is what comes before a match, the match, and what follows. */
  lemma AroundMatch(s: string, q: string, i: nat)
    requires MatchAt(s, q, i)
    ensures s == s[..i] + q + s[i + |q|..]
  {
    assert s == s[..i] + s[i..i + |q|] + s[i + |q|..];
  }

  /** Joining the pieces of a split with the same separator gives the input back. */
  lemma {:induction false} SplitJoin(s: string, sep: string)
    requires |sep| > 0
    ensures Join(Split(s, sep), sep) == s
    decreases |s|
  {
    match IndexOf(s, sep, 0)
    case None =>
    case Some(i) =>
      var head, rest := s[..i], s[i + |sep|..];
      SplitJoin(rest, sep);
      JoinCons(head, Split(rest, sep), sep);
      AroundMatch(s, sep, i);
  }


  /** No piece of a split contains the separator. */
  lemma {:induction false} SplitPartsExcludeSep(s: string, sep: string)
    requires |sep| > 0
    ensures forall k :: 0 <= k < |Split(s, sep)| ==> !Includes(Split(s, sep)[k], sep)
    decreases |s|
  {
    match IndexOf(s, sep, 0)
    case None =>
      assert Split(s, sep) == [s];
    case Some(i) =>
      var rest := s[i + |sep|..];
      SplitPartsExcludeSep(rest, sep);
      var head := s[..i];
      if Includes(head, sep) {
        var j: nat :| j <= |head| && MatchAt(head, sep, j);
        assert s[j..j + |sep|] == head[j..j + |sep|];
        assert MatchAt(s, sep, j);
        assert false;
      }
  }

  /** A leading piece that holds no occurrence of the separator, not even one
      reaching into the separator that follows it, is split off on its own. */
  lemma SplitCons(a: string, sep: string, b: string)
    requires |sep| > 0
    requires forall j: nat :: j < |a| ==> !MatchAt(a + sep + b, sep, j)
    ensures Split(a + sep + b, sep) == [a] + Split(b, sep)
  {
    var s := a + sep + b;
    assert s[|a|..|a| + |sep|] == sep;
    assert MatchAt(s, sep, |a|);
    var r := IndexOf(s, sep, 0);
    assert r == Some(|a|);
    assert s[..|a|] == a;
    assert s[|a| + |sep|..] == b;
  }

  /** An occurrence lying wholly inside a prefix is an occurrence in the prefix. */
  lemma MatchInPrefix(a: string, b: string, q: string, j: nat)
    requires j + |q| <= |a|
    ensures MatchAt(a + b, q, j) <==> MatchAt(a, q, j)
  {
    assert (a + b)[j..j + |q|] == a[j..j + |q|];
  }

  /** No occurrence of `sep` in `a + sep + b` starts in `a` and ends after it. */
  predicate NoStraddle(a: string, sep: string, b: string)
  {
    forall j: nat :: j < |a| < j + |sep| ==> !MatchAt(a + sep + b, sep, j)
  }

  /** Splitting a concatenation at a separator that no occurrence straddles
      splits the two sides independently. */
  lemma {:induction false} SplitAppend(a: string, sep: string, b: string)
    requires |sep| > 0
    requires NoStraddle(a, sep, b)
    ensures Split(a + sep + b, sep) == Split(a, sep) + Split(b, sep)
    decreases |a|
  {
    FirstSeparator(a, sep, b);
    match IndexOf(a, sep, 0)
    case None =>
      SplitAtInserted(a, sep, b);
    case Some(i) =>
      StraddleFreeSuffix(a, sep, b, i);
      SplitAppend(a[i + |sep|..], sep, b);
      SplitAtFirst(a, sep, i);
      SplitFirstInPrefix(a, sep, b, i);
      ConsAssoc(a[..i], Split(a[i + |sep|..], sep), Split(b, sep));
  }

  lemma ConsAssoc<T>(x: T, p: seq<T>, q: seq<T>)
    ensures [x] + (p + q) == ([x] + p) + q
  {
  }

  /** With no separator in `a`, the inserted one is the first. */
  lemma SplitAtInserted(a: string, sep: string, b: string)
    requires |sep| > 0 && IndexOf(a, sep, 0).None? && IndexOf(a + sep + b, sep, 0) == Some(|a|)
    ensures Split(a + sep + b, sep) == Split(a, sep) + Split(b, sep)
  {
    var s := a + sep + b;
    SplitAtFirst(s, sep, |a|);
    assert s[..|a|] == a && s[|a| + |sep|..] == b;
  }

  /** A first separator inside `a` splits off the same leading piece. */
  lemma SplitFirstInPrefix(a: string, sep: string, b: string, i: nat)
    requires |sep| > 0 && i + |sep| <= |a| && IndexOf(a + sep + b, sep, 0) == Some(i)
    ensures Split(a + sep + b, sep) == [a[..i]] + Split(a[i + |sep|..] + sep + b, sep)
  {
    var s := a + sep + b;
    SplitAtFirst(s, sep, i);
    assert s[i + |sep|..] == a[i + |sep|..] + sep + b;
    assert s[..i] == a[..i];
  }

  /** Unfolds `split` at its first separator. */
  lemma SplitAtFirst(s: string, sep: string, i: nat)
    requires |sep| > 0 && IndexOf(s, sep, 0) == Some(i)
    ensures Split(s, sep) == [s[..i]] + Split(s[i + |sep|..], sep)
  {
  }

  /** The first separator of `a + sep + b` is the first one in `a`, or the
      one that was inserted. */
  lemma FirstSeparator(a: string, sep: string, b: string)
    requires |sep| > 0
    requires NoStraddle(a, sep, b)
    ensures IndexOf(a + sep + b, sep, 0) == if IndexOf(a, sep, 0).Some? then IndexOf(a, sep, 0) else Some(|a|)
  {
    var s := a + sep + b;
    assert s[|a|..|a| + |sep|] == sep;
    assert MatchAt(s, sep, |a|);
    forall j: nat | j + |sep| <= |a| ensures MatchAt(s, sep, j) <==> MatchAt(a, sep, j) {
      assert s == a + (sep + b);
      MatchInPrefix(a, sep + b, sep, j);
    }
  }

  /** What follows the first separator of `a` is again free of straddling
      occurrences. */
  lemma StraddleFreeSuffix(a: string, sep: string, b: string, i: nat)
    requires |sep| > 0 && i + |sep| <= |a|
    requires NoStraddle(a, sep, b)
    ensures NoStraddle(a[i + |sep|..], sep, b)
  {
    var s := a + sep + b;
    var a' := a[i + |sep|..];
    assert s[i + |sep|..] == a' + sep + b;
    forall j: nat | j < |a'| < j + |sep| ensures !MatchAt(a' + sep + b, sep, j) {
      var k: nat := i + |sep| + j;
      assert !MatchAt(s, sep, k);
      assert (a' + sep + b)[j..j + |sep|] == s[k..k + |sep|];
    }
  }

  /** A string without the separator splits into itself alone. */
  lemma SplitNone(s: string, sep: string)
    requires |sep| > 0 && !Includes(s, sep)
    ensures Split(s, sep) == [s]
  {
    var r := IndexOf(s, sep, 0);
    assert r.None?;
  }

  // ---------------------------------------------------------------------------
  // Numbers and truthiness
  // ---------------------------------------------------------------------------

  function DigitChar(d: nat): char
    requires d < 10
  {
    ('0' as int + d) as char
  }

  /** `String(n)` for a non-negative integer: decimal digits without leading zeros. */
  function NatToString(n: nat): (r: string)
    ensures |r| >= 1 && forall i :: 0 <= i < |r| ==> IsDigit(r[i])
    ensures r[0] == '0' <==> n == 0
    decreases n
  {
    if n < 10 then [DigitChar(n)] else NatToString(n / 10) + [DigitChar(n % 10)]
  }

  /** The value of a string of decimal digits. */
  function DigitsValue(s: string): nat
    requires forall i :: 0 <= i < |s| ==> IsDigit(s[i])
    decreases |s|
  {
    if s == [] then 0
    else
      assert IsDigit(s[|s| - 1]);
      DigitsValue(s[..|s| - 1]) * 10 + (s[|s| - 1] as int - '0' as int)
  }

  /** Reading the digits back gives the number: the conversion is injective. */
  lemma {:induction false} NatToStringRoundTrip(n: nat)
    ensures DigitsValue(NatToString(n)) == n
    decreases n
  {
    if n >= 10 {
      NatToStringRoundTrip(n / 10);
      var r := NatToString(n);
      assert r[..|r| - 1] == NatToString(n / 10);
    }
  }

  /** JavaScript truthiness of a `string | null` value: present and non-empty. */
  predicate Truthy(v: Option<string>)
  {
    v.Some? && v.value != ""
  }
}
