/**
 * The share menu of a post: links that hand the post's title, address and
 * description to Twitter, Facebook and LinkedIn as query parameters, each
 * value passed through `encodeURIComponent`.
 */
module SocialShare {
  import opened Wrappers
  import opened JsString
  import opened UriComponent

  /** `description || ''`: a missing or empty description becomes ''. */
  function DescriptionOrEmpty(description: Option<string>): (r: string)
    ensures Truthy(description) ==> r == description.value
    ensures !Truthy(description) ==> r == ""
  {
    if Truthy(description) then description.value else ""
  }

  /** The three share endpoints, each an origin and a path. */
  const TwitterBase := "https://twitter.com" + "/intent/tweet"
  const FacebookBase := "https://www.facebook.com" + "/sharer/sharer.php"
  const LinkedInBase := "https://www.linkedin.com" + "/sharing/share-offsite/"

  lemma TwitterBaseHasNoQuery()
    ensures '?' !in TwitterBase
  {
  }

  lemma FacebookBaseHasNoQuery()
    ensures '?' !in FacebookBase
  {
  }

  lemma LinkedInBaseHasNoQuery()
    ensures '?' !in LinkedInBase
  {
  }

  datatype ShareLinks = ShareLinks(twitter: string, facebook: string, linkedin: string)

  /** `name=value`, the value encoded. */
  function Param(name: string, value: string): string
  {
    name + "=" + Encode(value)
  }

  function TwitterLink(title: string, url: string): string
  {
    TwitterBase + "?" + (Param("text", title) + "&" + Param("url", url))
  }

  function FacebookLink(url: string): string
  {
    FacebookBase + "?" + Param("u", url)
  }

  function LinkedInLink(url: string, title: string, summary: string): string
  {
    LinkedInBase + "?" + (Param("url", url) + "&" + (Param("title", title) + "&" + Param("summary", summary)))
  }

  /** `shareLinks`. */
  function Links(title: string, url: string, description: Option<string>): (r: ShareLinks)
    ensures Query(r.twitter) == Some([("text", Encode(title)), ("url", Encode(url))])
    ensures Query(r.facebook) == Some([("u", Encode(url))])
    ensures Query(r.linkedin)
      == Some([("url", Encode(url)), ("title", Encode(title)), ("summary", Encode(DescriptionOrEmpty(description)))])
    ensures StartsWith(r.twitter, TwitterBase + "?")
    ensures StartsWith(r.facebook, FacebookBase + "?")
    ensures StartsWith(r.linkedin, LinkedInBase + "?")
  {
    TwitterParams(title, url);
    FacebookParams(url);
    LinkedInParams(url, title, DescriptionOrEmpty(description));
    ShareLinks(
      TwitterLink(title, url),
      FacebookLink(url),
      LinkedInLink(url, title, DescriptionOrEmpty(description)))
  }

  // ---------------------------------------------------------------------------
  // Reading a link back
  // ---------------------------------------------------------------------------

  /** A query parameter split at its first `=`, as `URLSearchParams` does;
      one without `=` has an empty value. */
  function SplitParam(p: string): (string, string)
  {
    match IndexOf(p, "=", 0)
    case None => (p, "")
    case Some(i) => (p[..i], p[i + 1..])
  }

  function SplitParams(ps: seq<string>): seq<(string, string)>
  {
    seq(|ps|, k requires 0 <= k < |ps| => SplitParam(ps[k]))
  }

  /** The parameters of a link: what follows its first `?`, cut at every
      `&` and each piece at its first `=`; `None` for a link with no `?`. */
  function Query(link: string): Option<seq<(string, string)>>
  {
    match IndexOf(link, "?", 0)
    case None => None
    case Some(i) => Some(SplitParams(Split(link[i + 1..], "&")))
  }

  /** Decoding every value of a parameter list. */
  function DecodeValues(ps: seq<(string, string)>): Option<seq<string>>
    decreases |ps|
  {
    if ps == [] then Some([])
    else
      match (Decode(ps[0].1), DecodeValues(ps[1..]))
      case (Some(v), Some(vs)) => Some([v] + vs)
      case _ => None
  }

  /** A character absent from `a` is first found right after it. */
  lemma FirstAfter(a: string, c: char, b: string)
    requires c !in a
    ensures IndexOf(a + [c] + b, [c], 0) == Some(|a|)
  {
    AbsentLetterExcludes(a, [c], c);
    IncludesIffIndexOf(a, [c]);
    FirstSeparator(a, [c], b);
  }

  /** A parameter whose name has no `=` splits into its name and its encoded
      value. */
  lemma SplitOneParam(name: string, value: string)
    requires '=' !in name
    ensures SplitParam(Param(name, value)) == (name, Encode(value))
  {
    FirstAfter(name, '=', Encode(value));
    var p := Param(name, value);
    assert p[..|name|] == name && p[|name| + 1..] == Encode(value);
  }

  lemma NoAmpersandInParam(name: string, value: string)
    requires '&' !in name
    ensures !Includes(Param(name, value), "&")
  {
    EncodedHasNoDelimiter(value);
    assert '&' !in Param(name, value);
    AbsentLetterExcludes(Param(name, value), "&", '&');
  }

  /** `first&rest` splits into `first` and the pieces of `rest`. */
  lemma SplitFirstParam(name: string, value: string, rest: string)
    requires '&' !in name
    ensures Split(Param(name, value) + "&" + rest, "&") == [Param(name, value)] + Split(rest, "&")
  {
    NoAmpersandInParam(name, value);
    SplitAppend(Param(name, value), "&", rest);
    SplitNone(Param(name, value), "&");
  }

  lemma SplitLastParam(name: string, value: string)
    requires '&' !in name
    ensures Split(Param(name, value), "&") == [Param(name, value)]
  {
    NoAmpersandInParam(name, value);
    SplitNone(Param(name, value), "&");
  }

  /** The query of a link made of a base without `?` and a query string. */
  lemma QueryOf(base: string, query: string)
    requires '?' !in base
    ensures Query(base + "?" + query) == Some(SplitParams(Split(query, "&")))
  {
    FirstAfter(base, '?', query);
    assert (base + "?" + query)[|base| + 1..] == query;
  }

  /** Values that are encodings decode back to what was encoded. */
  lemma {:induction false} DecodeEncodedValues(ps: seq<(string, string)>, vs: seq<string>)
    requires |ps| == |vs| && forall k :: 0 <= k < |ps| ==> ps[k].1 == Encode(vs[k])
    ensures DecodeValues(ps) == Some(vs)
    decreases |ps|
  {
    if ps != [] {
      DecodeEncode(vs[0]);
      DecodeEncodedValues(ps[1..], vs[1..]);
      assert [vs[0]] + vs[1..] == vs;
    }
  }

  /** Decoding the Twitter link's values gives the title and address back. */
  lemma DecodeTwo(a: string, b: string)
    ensures DecodeValues([("text", Encode(a)), ("url", Encode(b))]) == Some([a, b])
  {
    DecodeEncodedValues([("text", Encode(a)), ("url", Encode(b))], [a, b]);
  }

  /** The Twitter link carries exactly two parameters, `text` then `url`,
      whose values decode to the title and the address (DecodeTwo). */
  lemma TwitterParams(title: string, url: string)
    ensures Query(TwitterLink(title, url)) == Some([("text", Encode(title)), ("url", Encode(url))])
  {
    TwitterBaseHasNoQuery();
    QueryOf(TwitterBase, Param("text", title) + "&" + Param("url", url));
    TwoParams("text", title, "url", url);
  }

  lemma TwoParams(n1: string, v1: string, n2: string, v2: string)
    requires '&' !in n1 && '&' !in n2 && '=' !in n1 && '=' !in n2
    ensures SplitParams(Split(Param(n1, v1) + "&" + Param(n2, v2), "&"))
      == [(n1, Encode(v1)), (n2, Encode(v2))]
  {
    SplitFirstParam(n1, v1, Param(n2, v2));
    SplitLastParam(n2, v2);
    SplitOneParam(n1, v1);
    SplitOneParam(n2, v2);
  }

  lemma ThreeParams(n1: string, v1: string, n2: string, v2: string, n3: string, v3: string)
    requires '&' !in n1 && '&' !in n2 && '&' !in n3
    requires '=' !in n1 && '=' !in n2 && '=' !in n3
    ensures SplitParams(Split(Param(n1, v1) + "&" + (Param(n2, v2) + "&" + Param(n3, v3)), "&"))
      == [(n1, Encode(v1)), (n2, Encode(v2)), (n3, Encode(v3))]
  {
    var tail := Param(n2, v2) + "&" + Param(n3, v3);
    SplitFirstParam(n1, v1, tail);
    TwoParams(n2, v2, n3, v3);
    SplitOneParam(n1, v1);
    var ps := [Param(n1, v1)] + Split(tail, "&");
    assert SplitParams(ps) == [SplitParam(ps[0])] + SplitParams(ps[1..]);
    assert ps[1..] == Split(tail, "&");
  }

  /** The Facebook link carries the address alone. */
  lemma FacebookParams(url: string)
    ensures Query(FacebookLink(url)) == Some([("u", Encode(url))])
  {
    FacebookBaseHasNoQuery();
    QueryOf(FacebookBase, Param("u", url));
    SplitLastParam("u", url);
    SplitOneParam("u", url);
    assert SplitParams([Param("u", url)]) == [SplitParam(Param("u", url))];
  }

  /** The LinkedIn link carries `url`, `title` and `summary` in that order. */
  lemma LinkedInParams(url: string, title: string, summary: string)
    ensures Query(LinkedInLink(url, title, summary))
      == Some([("url", Encode(url)), ("title", Encode(title)), ("summary", Encode(summary))])
  {
    LinkedInBaseHasNoQuery();
    QueryOf(LinkedInBase, Param("url", url) + "&" + (Param("title", title) + "&" + Param("summary", summary)));
    ThreeParams("url", url, "title", title, "summary", summary);
  }

  /** Decoding the LinkedIn link's values gives the address, the title and
      the summary back. */
  lemma DecodeThree(url: string, title: string, summary: string)
    ensures DecodeValues([("url", Encode(url)), ("title", Encode(title)), ("summary", Encode(summary))])
      == Some([url, title, summary])
  {
    DecodeEncodedValues(
      [("url", Encode(url)), ("title", Encode(title)), ("summary", Encode(summary))],
      [url, title, summary]);
  }

  /** The Facebook link depends on the address only. */
  lemma FacebookIgnoresTitle(t1: string, t2: string, url: string, d1: Option<string>, d2: Option<string>)
    ensures Links(t1, url, d1).facebook == Links(t2, url, d2).facebook
  {
  }

  /** Text after a common prefix tells two strings apart. */
  lemma DistinctAfterPrefix(prefix: string, a: string, b: string)
    requires a != b
    ensures prefix + a != prefix + b
  {
    assert (prefix + a)[|prefix|..] == a;
    assert (prefix + b)[|prefix|..] == b;
  }

  /** Different addresses give different Facebook links. */
  lemma FacebookDistinguishesUrls(u1: string, u2: string)
    requires u1 != u2
    ensures FacebookLink(u1) != FacebookLink(u2)
  {
    if Encode(u1) == Encode(u2) {
      EncodeInjective(u1, u2);
      assert false;
    }
    DistinctAfterPrefix("u=", Encode(u1), Encode(u2));
    assert Param("u", u1) == "u=" + Encode(u1) && Param("u", u2) == "u=" + Encode(u2);
    DistinctAfterPrefix(FacebookBase + "?", Param("u", u1), Param("u", u2));
  }

  /** No description and an empty one give the same links. */
  lemma MissingDescriptionIsEmpty(title: string, url: string)
    ensures Links(title, url, None) == Links(title, url, Some(""))
  {
  }
}
