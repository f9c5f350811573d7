/**
 * The comment section under a post: a fixed list of comments with their
 * replies, the form that submits a new comment, and the initials shown in
 * place of a missing avatar.
 */
module CommentSection {
  import opened Wrappers
  import opened JsString
  import opened Seqs

  datatype CommentAuthor = CommentAuthor(name: string, avatar: Option<string>, email: string)

  /** A comment. A comment without a `replies` list renders like one whose
      list is empty, so an absent list is modelled as the empty one. */
  datatype Comment = Comment(
    id: string,
    author: CommentAuthor,
    content: string,
    createdAt: string,
    likes: nat,
    replies: seq<Comment>)

  /** The comments every post shows: two top-level comments, the first with
      one reply. */
  const MockComments: seq<Comment> := [
    Comment(
      "1",
      CommentAuthor(
        "Sarah Johnson",
        Some("https://images.unsplash.com/photo-1494790108755-2616b612b786?w=150"),
        "sarah@example.com"),
      "Great article! This really helped me understand the concepts better. Looking forward to more content like this.",
      "2024-01-15T10:30:00Z",
      12,
      [Comment(
        "2",
        CommentAuthor(
          "Mike Chen",
          Some("https://images.unsplash.com/photo-1507003211169-0a1dd7228f2d?w=150"),
          "mike@example.com"),
        "I agree! The examples were particularly helpful.",
        "2024-01-15T11:15:00Z",
        3,
        [])]),
    Comment(
      "3",
      CommentAuthor("Alex Rivera", None, "alex@example.com"),
      "Thanks for sharing this. I've been struggling with this topic and your explanation made it click for me.",
      "2024-01-14T16:45:00Z",
      8,
      [])
  ]

  // ---------------------------------------------------------------------------
  // getInitials
  // ---------------------------------------------------------------------------

  /** `n[0]` of one segment, as `join('')` writes it: an empty segment has no
      first character, and the `undefined` it yields is written as nothing. */
  function Initial(segment: string): string
  {
    if segment == [] then "" else [segment[0]]
  }

  function InitialsOf(segments: seq<string>): seq<string>
  {
    seq(|segments|, k requires 0 <= k < |segments| => Initial(segments[k]))
  }

  function NonEmpty(segment: string): bool
  {
    |segment| > 0
  }

  /** The first characters of non-empty segments, in order. */
  function Heads(segments: seq<string>): (r: string)
    requires forall k :: 0 <= k < |segments| ==> NonEmpty(segments[k])
    ensures |r| == |segments|
  {
    seq(|segments|, k requires 0 <= k < |segments| && NonEmpty(segments[k]) => segments[k][0])
  }

  lemma HeadsAppend(a: seq<string>, b: seq<string>)
    requires forall k :: 0 <= k < |a| ==> NonEmpty(a[k])
    requires forall k :: 0 <= k < |b| ==> NonEmpty(b[k])
    ensures Heads(a + b) == Heads(a) + Heads(b)
  {
  }

  lemma {:induction false} JoinedInitials(segments: seq<string>)
    ensures Join(InitialsOf(segments), "") == Heads(Filter(segments, NonEmpty))
    decreases |segments|
  {
    if segments != [] {
      var rest := segments[1..];
      JoinedInitials(rest);
      assert InitialsOf(segments) == [Initial(segments[0])] + InitialsOf(rest);
      ConcatCons(Initial(segments[0]), InitialsOf(rest));
      var first := if NonEmpty(segments[0]) then [segments[0]] else [];
      assert Filter(segments, NonEmpty) == first + Filter(rest, NonEmpty);
      HeadsAppend(first, Filter(rest, NonEmpty));
    }
  }

  /** `getInitials`: the first character of every non-empty space-separated
      segment of the name, upper-cased, in order; empty segments (from
      leading, trailing or repeated spaces) add nothing, so there are never
      more initials than segments. */
  function GetInitials(name: string): (r: string)
    ensures r == ToUpperCase(Heads(Filter(Split(name, " "), NonEmpty)))
    ensures |r| == |Filter(Split(name, " "), NonEmpty)| <= |Split(name, " ")|
  {
    JoinedInitials(Split(name, " "));
    ToUpperCase(Join(InitialsOf(Split(name, " ")), ""))
  }

  /** The initials of two space-separated parts are the initials of each. */
  lemma InitialsAppend(a: string, b: string)
    ensures GetInitials(a + " " + b) == GetInitials(a) + GetInitials(b)
  {
    SplitAppend(a, " ", b);
    var p, q := Split(a, " "), Split(b, " ");
    FilterAppend(p, q, NonEmpty);
    HeadsAppend(Filter(p, NonEmpty), Filter(q, NonEmpty));
    UpperAppend(Heads(Filter(p, NonEmpty)), Heads(Filter(q, NonEmpty)));
  }

  /** A word without spaces has its first letter, upper-cased, as initials. */
  lemma WordInitial(w: string)
    requires |w| > 0 && ' ' !in w
    ensures GetInitials(w) == [UpperChar(w[0])]
  {
    AbsentLetterExcludes(w, " ", ' ');
    SplitNone(w, " ");
    assert Filter([w], NonEmpty) == [w];
  }

  /** A name of two words separated by one space gives two initials. */
  lemma TwoWordInitials(first: string, last: string)
    requires |first| > 0 && ' ' !in first && |last| > 0 && ' ' !in last
    ensures GetInitials(first + " " + last) == [UpperChar(first[0]), UpperChar(last[0])]
  {
    InitialsAppend(first, last);
    WordInitial(first);
    WordInitial(last);
  }

  /** Spaces around a name do not change its initials. */
  lemma SurroundingSpacesIgnored(name: string)
    ensures GetInitials(" " + name) == GetInitials(name)
    ensures GetInitials(name + " ") == GetInitials(name)
  {
    assert GetInitials("") == "" by {
      assert Split("", " ") == [""];
    }
    InitialsAppend("", name);
    assert "" + " " + name == " " + name;
    InitialsAppend(name, "");
    assert name + " " + "" == name + " ";
  }

  // ---------------------------------------------------------------------------
  // The comment list
  // ---------------------------------------------------------------------------

  /** Every comment in a list, replies included, at any depth. */
  function CountAll(cs: seq<Comment>): nat
    decreases cs
  {
    if cs == [] then 0 else 1 + CountAll(cs[0].replies) + CountAll(cs[1..])
  }

  /** One rendered comment: its author, the initials in the avatar fallback,
      its like count, whether it is indented as a reply and whether it offers
      a Reply button. */
  datatype CommentView = CommentView(
    id: string,
    name: string,
    initials: string,
    likes: nat,
    indented: bool,
    replyButton: bool)

  /** `CommentItem` for one comment: a reply is indented and offers no Reply
      button, a top-level comment is flush and offers one; the avatar
      fallback holds one capital per name segment. */
  function ViewOf(c: Comment, isReply: bool): (r: CommentView)
    ensures r.indented == isReply && (r.replyButton <==> !r.indented)
    ensures r.id == c.id && r.name == c.author.name && r.likes == c.likes
    ensures |r.initials| == |Filter(Split(c.author.name, " "), NonEmpty)|
  {
    CommentView(c.id, c.author.name, GetInitials(c.author.name), c.likes, isReply, !isReply)
  }

  /** `CommentItem` over a list: each comment, then its replies rendered as
      replies, then the comments after it. */
  function Thread(cs: seq<Comment>, isReply: bool): (r: seq<CommentView>)
    decreases cs
    ensures |r| == CountAll(cs) >= |cs|
    ensures isReply ==> forall k :: 0 <= k < |r| ==> r[k].indented && !r[k].replyButton
  {
    if cs == [] then []
    else [ViewOf(cs[0], isReply)] + Thread(cs[0].replies, true) + Thread(cs[1..], isReply)
  }

  function HasReplyButton(v: CommentView): bool
  {
    v.replyButton
  }

  /** Exactly the top-level comments get a Reply button, and they are as many
      as the list the header counts; every other rendered comment is a reply. */
  lemma {:induction false} ReplyButtonsCountTopLevel(cs: seq<Comment>)
    ensures |Filter(Thread(cs, false), HasReplyButton)| == |cs|
    decreases cs
  {
    if cs != [] {
      var head, replies, rest := ViewOf(cs[0], false), Thread(cs[0].replies, true), Thread(cs[1..], false);
      assert Thread(cs, false) == [head] + (replies + rest);
      ReplyButtonsCountTopLevel(cs[1..]);
      FilterCons(head, replies + rest, HasReplyButton);
      FilterAppend(replies, rest, HasReplyButton);
      FilterNone(replies, HasReplyButton);
      assert HasReplyButton(head);
    }
  }

  /** The header counts only the top-level comments: it matches the number
      of rendered comments exactly when no comment has a reply. */
  lemma {:induction false} HeaderCountsTopLevel(cs: seq<Comment>)
    ensures CountAll(cs) == |cs| <==> forall k :: 0 <= k < |cs| ==> cs[k].replies == []
    decreases cs
  {
    if cs != [] {
      HeaderCountsTopLevel(cs[1..]);
      assert CountAll(cs[1..]) >= |cs[1..]| == |cs| - 1 by {
        var _ := Thread(cs[1..], false);
      }
      assert CountAll(cs[0].replies) == 0 <==> cs[0].replies == [] by {
        var _ := Thread(cs[0].replies, true);
      }
      if forall k :: 0 <= k < |cs| ==> cs[k].replies == [] {
        assert forall k :: 0 <= k < |cs[1..]| ==> cs[1..][k].replies == [] by {
          forall k | 0 <= k < |cs[1..]| ensures cs[1..][k].replies == [] {
            assert cs[1..][k] == cs[k + 1];
          }
        }
      } else {
        var k :| 0 <= k < |cs| && cs[k].replies != [];
        if k > 0 {
          assert cs[1..][k - 1] == cs[k];
        }
      }
    }
  }

  /** The header above the list: `Comments (<count>)`, where the count is
      that of the top-level comments. */
  function HeaderText(cs: seq<Comment>): (r: string)
    ensures |r| >= 12 && r[..10] == "Comments (" && r[|r| - 1] == ')'
    ensures var t := r[10..|r| - 1];
      (forall i :: 0 <= i < |t| ==> IsDigit(t[i])) && DigitsValue(t) == |cs|
  {
    var r := "Comments (" + NatToString(|cs|) + ")";
    assert r[10..|r| - 1] == NatToString(|cs|);
    NatToStringRoundTrip(|cs|);
    r
  }

  // ---------------------------------------------------------------------------
  // The comment form
  // ---------------------------------------------------------------------------

  /** What `handleSubmit` hands on once the wait is over. */
  datatype Submission = Submission(postId: string, content: string, authorName: string, authorEmail: string)

  /** The submit guard: none of the three fields is empty once trimmed. */
  predicate Filled(content: string, name: string, email: string)
  {
    Trim(content) != "" && Trim(name) != "" && Trim(email) != ""
  }

  /** The guard accepts exactly when each field holds something other than
      white space and line terminators. */
  lemma FilledIffNoneBlank(content: string, name: string, email: string)
    ensures Filled(content, name, email) <==> !IsBlank(content) && !IsBlank(name) && !IsBlank(email)
  {
    TrimEmptyIffBlank(content);
    TrimEmptyIffBlank(name);
    TrimEmptyIffBlank(email);
  }

  /** A button as the form shows it: its text and whether it can be pressed. */
  datatype Button = Button(text: string, enabled: bool)

  class CommentForm {
    const postId: string
    /** Bound with no setter: the list never changes. */
    const comments: seq<Comment>
    var newComment: string
    var authorName: string
    var authorEmail: string
    var isSubmitting: bool

    constructor (postId: string)
      ensures this.postId == postId && comments == MockComments
      ensures newComment == "" && authorName == "" && authorEmail == "" && !isSubmitting
    {
      this.postId := postId;
      comments := MockComments;
      newComment := "";
      authorName := "";
      authorEmail := "";
      isSubmitting := false;
    }

    method SetNewComment(value: string)
      modifies this
      ensures newComment == value
      ensures authorName == old(authorName) && authorEmail == old(authorEmail)
      ensures isSubmitting == old(isSubmitting)
    {
      newComment := value;
    }

    method SetAuthorName(value: string)
      modifies this
      ensures authorName == value
      ensures newComment == old(newComment) && authorEmail == old(authorEmail)
      ensures isSubmitting == old(isSubmitting)
    {
      authorName := value;
    }

    method SetAuthorEmail(value: string)
      modifies this
      ensures authorEmail == value
      ensures newComment == old(newComment) && authorName == old(authorName)
      ensures isSubmitting == old(isSubmitting)
    {
      authorEmail := value;
    }

    /** `handleSubmit` up to the wait: a form with a blank field is left as
        it is; otherwise the form turns to submitting and the comment, as
        typed, is pending. */
    method BeginSubmit() returns (pending: Option<Submission>)
      modifies this
      ensures pending.Some? <==> old(Filled(newComment, authorName, authorEmail))
      ensures pending.None? ==> isSubmitting == old(isSubmitting)
      ensures pending.Some? ==>
        isSubmitting && pending.value == Submission(postId, newComment, authorName, authorEmail)
      ensures pending.Some? ==> !SubmitButton().enabled && SubmitButton().text == "Posting..."
      ensures newComment == old(newComment) && authorName == old(authorName)
      ensures authorEmail == old(authorEmail)
    {
      if !Filled(newComment, authorName, authorEmail) {
        return None;
      }
      isSubmitting := true;
      pending := Some(Submission(postId, newComment, authorName, authorEmail));
    }

    /** `handleSubmit` after the wait: the three fields are cleared and the
        form is ready again, so submitting once more is refused until
        something is typed. */
    method CompleteSubmit()
      modifies this
      ensures newComment == "" && authorName == "" && authorEmail == "" && !isSubmitting
      ensures !Filled(newComment, authorName, authorEmail)
      ensures SubmitButton().enabled && SubmitButton().text == "Post Comment"
    {
      newComment := "";
      authorName := "";
      authorEmail := "";
      isSubmitting := false;
    }

    /** The submit button: disabled, and reading "Posting...", while a
        comment is being posted; enabled and reading "Post Comment" otherwise. */
    function SubmitButton(): (b: Button)
      reads this
      ensures b.enabled <==> !isSubmitting
      ensures b.text == "Posting..." <==> isSubmitting
      ensures !isSubmitting ==> b.text == "Post Comment"
    {
      Button(if isSubmitting then "Posting..." else "Post Comment", !isSubmitting)
    }

    /** The section heading, counting the top-level comments only. */
    function Header(): (r: string)
      reads this
      ensures |r| >= 12 && r[..10] == "Comments (" && r[|r| - 1] == ')'
      ensures var t := r[10..|r| - 1];
        (forall i :: 0 <= i < |t| ==> IsDigit(t[i])) && DigitsValue(t) == |comments|
    {
      HeaderText(comments)
    }
  }

  // ---------------------------------------------------------------------------
  // The shipped comments
  // ---------------------------------------------------------------------------

  /** The initials the fixture's authors are shown with. */
  lemma FirstAuthorInitials()
    ensures GetInitials(MockComments[0].author.name) == "SJ"
  {
    assert "Sarah Johnson" == "Sarah" + " " + "Johnson";
    TwoWordInitials("Sarah", "Johnson");
  }

  lemma ReplyAuthorInitials()
    ensures GetInitials(MockComments[0].replies[0].author.name) == "MC"
  {
    assert "Mike Chen" == "Mike" + " " + "Chen";
    TwoWordInitials("Mike", "Chen");
  }

  lemma SecondAuthorInitials()
    ensures GetInitials(MockComments[1].author.name) == "AR"
  {
    assert "Alex Rivera" == "Alex" + " " + "Rivera";
    TwoWordInitials("Alex", "Rivera");
  }

  /** Two comments and the replies under each. */
  lemma CountTwo(cs: seq<Comment>)
    requires |cs| == 2
    ensures CountAll(cs) == 2 + CountAll(cs[0].replies) + CountAll(cs[1].replies)
  {
    assert cs[1..][1..] == [];
    assert CountAll(cs[1..]) == 1 + CountAll(cs[1].replies) + CountAll(cs[1..][1..]);
  }

  /** One comment and the replies under it. */
  lemma CountOne(cs: seq<Comment>)
    requires |cs| == 1
    ensures CountAll(cs) == 1 + CountAll(cs[0].replies)
  {
    assert cs[1..] == [];
  }

  /** The shipped list: two comments, the first with one reply. */
  lemma MockShape()
    ensures |MockComments| == 2
    ensures |MockComments[0].replies| == 1 && MockComments[0].replies[0].replies == []
    ensures MockComments[1].replies == []
  {
  }

  /** Three comments are shown in the shipped thread. */
  lemma MockThreadShowsThree()
    ensures |Thread(MockComments, false)| == 3
  {
    MockShape();
    CountTwo(MockComments);
    CountOne(MockComments[0].replies);
  }

  /** A list of two top-level comments is headed "Comments (2)" and offers
      two Reply buttons, whatever replies it holds. */
  lemma TwoTopLevel(cs: seq<Comment>)
    requires |cs| == 2
    ensures HeaderText(cs) == "Comments (2)"
    ensures |Filter(Thread(cs, false), HasReplyButton)| == 2
  {
    assert NatToString(2) == "2";
    ReplyButtonsCountTopLevel(cs);
  }

  /** The header reads "Comments (2)" while three comments are shown
      (MockThreadShowsThree), and only the two top-level ones offer a Reply
      button. */
  lemma MockHeaderMissesReply()
    ensures HeaderText(MockComments) == "Comments (2)"
    ensures |Thread(MockComments, false)| == 3
    ensures |Filter(Thread(MockComments, false), HasReplyButton)| == 2
  {
    MockShape();
    MockThreadShowsThree();
    TwoTopLevel(MockComments);
  }
}
