/** The post page (src/components/post-render.tsx): the comment list and its
    post, edit and delete handlers, the "time ago" label of a comment, the
    owner check, and the injection of section ids into heading tags. */
module PostRender {
  import opened Outcomes
  import opened Text

  /** The fields of a comment the page reads: `id`, `content`, the id of its
      `commenter` (absent when the commenter or its id is), and `commentTime`. */
  datatype Comment = Comment(id: Option<string>, content: string, commenterId: Option<string>, commentTime: string)

  /** The stored user; only its `id` is read. */
  datatype Member = Member(id: Option<string>)

  /** `c.id === commentId`: an absent id matches nothing. */
  predicate HasId(c: Comment, commentId: string) {
    c.id == Some(commentId)
  }

  // ---------------------------------------------------------------- editing

  /** `comments.map(c => c.id === commentId ? { ...c, content } : c)`. */
  function WithContent(cs: seq<Comment>, commentId: string, content: string): (r: seq<Comment>)
    ensures |r| == |cs|
  {
    if cs == [] then []
    else
      var c := cs[|cs| - 1];
      WithContent(cs[..|cs| - 1], commentId, content) + [if HasId(c, commentId) then c.(content := content) else c]
  }

  /** An edit replaces the content of exactly the comments with the id and
      leaves every other comment as it was. */
  lemma {:induction false} EditPointwise(cs: seq<Comment>, commentId: string, content: string)
    ensures var r := WithContent(cs, commentId, content);
            forall i :: 0 <= i < |cs| ==>
              r[i] == if HasId(cs[i], commentId) then cs[i].(content := content) else cs[i]
  {
    if cs != [] {
      EditPointwise(cs[..|cs| - 1], commentId, content);
    }
  }

  /** An edit keeps every comment's id, commenter and time, so the ids, in
      order, are those of the old list. */
  lemma EditKeepsIdsAndOrder(cs: seq<Comment>, commentId: string, content: string)
    ensures var r := WithContent(cs, commentId, content);
            forall i :: 0 <= i < |cs| ==>
              r[i].id == cs[i].id && r[i].commenterId == cs[i].commenterId && r[i].commentTime == cs[i].commentTime
  {
    EditPointwise(cs, commentId, content);
  }

  /** Saving the same edit twice is saving it once. */
  lemma EditIdempotent(cs: seq<Comment>, commentId: string, content: string)
    ensures WithContent(WithContent(cs, commentId, content), commentId, content) == WithContent(cs, commentId, content)
  {
    EditPointwise(cs, commentId, content);
    EditPointwise(WithContent(cs, commentId, content), commentId, content);
  }

  /** A list without the id is left alone by an edit of that id. */
  lemma EditOfAbsentIdIsIdentity(cs: seq<Comment>, commentId: string, content: string)
    requires forall i :: 0 <= i < |cs| ==> !HasId(cs[i], commentId)
    ensures WithContent(cs, commentId, content) == cs
  {
    EditPointwise(cs, commentId, content);
  }

  // --------------------------------------------------------------- deleting

  /** `comments.filter(c => c.id !== commentId)`. */
  function Without(cs: seq<Comment>, commentId: string): (r: seq<Comment>)
    ensures |r| <= |cs|
    ensures forall i :: 0 <= i < |r| ==> !HasId(r[i], commentId)
  {
    if cs == [] then []
    else
      var c := cs[|cs| - 1];
      Without(cs[..|cs| - 1], commentId) + (if HasId(c, commentId) then [] else [c])
  }

  /** A comment survives a delete exactly when it was in the list and does
      not carry the id. */
  lemma {:induction false} DeleteMembership(cs: seq<Comment>, commentId: string, c: Comment)
    ensures c in Without(cs, commentId) <==> c in cs && !HasId(c, commentId)
  {
    if cs != [] {
      var n := |cs| - 1;
      assert cs == cs[..n] + [cs[n]];
      DeleteMembership(cs[..n], commentId, c);
    }
  }

  /** The number of comments carrying the id. */
  function CountWithId(cs: seq<Comment>, commentId: string): nat {
    if cs == [] then 0
    else CountWithId(cs[..|cs| - 1], commentId) + (if HasId(cs[|cs| - 1], commentId) then 1 else 0)
  }

  /** Deleting keeps the rest in their relative order: the filter of a
      concatenation is the concatenation of the filters. */
  lemma {:induction false} DeleteDistributes(a: seq<Comment>, b: seq<Comment>, commentId: string)
    ensures Without(a + b, commentId) == Without(a, commentId) + Without(b, commentId)
  {
    if b != [] {
      var n := |b| - 1;
      assert (a + b)[..|a + b| - 1] == a + b[..n];
      assert (a + b)[|a + b| - 1] == b[n];
      DeleteDistributes(a, b[..n], commentId);
    } else {
      assert a + b == a;
    }
  }

  /** Exactly the comments with the id are removed: one fewer for each of them. */
  lemma {:induction false} DeleteRemovesExactlyMatches(cs: seq<Comment>, commentId: string)
    ensures |Without(cs, commentId)| + CountWithId(cs, commentId) == |cs|
  {
    if cs != [] {
      DeleteRemovesExactlyMatches(cs[..|cs| - 1], commentId);
    }
  }

  /** Without a comment carrying the id the list is unchanged. */
  lemma {:induction false} DeleteOfAbsentIdIsIdentity(cs: seq<Comment>, commentId: string)
    requires forall i :: 0 <= i < |cs| ==> !HasId(cs[i], commentId)
    ensures Without(cs, commentId) == cs
  {
    if cs != [] {
      DeleteOfAbsentIdIsIdentity(cs[..|cs| - 1], commentId);
    }
  }

  /** Deleting twice is deleting once. */
  lemma DeleteIdempotent(cs: seq<Comment>, commentId: string)
    ensures Without(Without(cs, commentId), commentId) == Without(cs, commentId)
  {
    DeleteOfAbsentIdIsIdentity(Without(cs, commentId), commentId);
  }

  /** A new comment posted in front survives a delete of another id, still in front. */
  lemma DeleteKeepsPostedComment(c: Comment, cs: seq<Comment>, commentId: string)
    requires !HasId(c, commentId)
    ensures Without([c] + cs, commentId) == [c] + Without(cs, commentId)
  {
    DeleteDistributes([c], cs, commentId);
    assert [c][..0] == [];
  }

  // --------------------------------------------------------------- ownership

  /** `isCommentOwner`: a stored user whose `id` strictly equals the
      commenter's. Both absent count as equal, as `undefined === undefined`. */
  predicate IsOwner(currentUser: Option<Member>, c: Comment) {
    currentUser.Some? && c.commenterId == currentUser.value.id
  }

  /** Nobody owns anything before a user is stored; a stored user with an id
      owns exactly the comments of that commenter id; a stored user without
      an id owns exactly the comments without a commenter id. */
  lemma OwnerCases(currentUser: Option<Member>, c: Comment)
    ensures currentUser.None? ==> !IsOwner(currentUser, c)
    ensures currentUser.Some? && currentUser.value.id.Some? ==>
              (IsOwner(currentUser, c) <==> c.commenterId.Some? && c.commenterId.value == currentUser.value.id.value)
    ensures currentUser.Some? && currentUser.value.id.None? ==>
              (IsOwner(currentUser, c) <==> c.commenterId.None?)
  {
  }

  // ---------------------------------------------------------------- time ago

  /** The buckets of `formatTimeAgo`. `NotANumber` is the outcome for an
      unparsable date: every comparison with NaN fails, so the last branch
      renders "NaN" days. */
  datatype TimeAgo = JustNow | MinutesAgo(minutes: int) | HoursAgo(hours: int) | DaysAgo(days: int) | NotANumber

  /** `formatTimeAgo` given the parsed comment time (absent for an invalid
      date) and the current time, both in milliseconds. `seconds` is
      `Math.floor(diff / 1000)`, which Dafny's `/` computes for a positive
      divisor; a comment in the future is "just now". */
  function FormatTimeAgo(commentMs: Option<int>, nowMs: int): (r: TimeAgo)
    ensures commentMs.None? <==> r == NotANumber
    ensures r == JustNow <==> commentMs.Some? && nowMs - commentMs.value < 60000
    ensures r.MinutesAgo? <==> commentMs.Some? && 60000 <= nowMs - commentMs.value < 3600000
    ensures r.HoursAgo? <==> commentMs.Some? && 3600000 <= nowMs - commentMs.value < 86400000
    ensures r.DaysAgo? <==> commentMs.Some? && 86400000 <= nowMs - commentMs.value
    ensures r.MinutesAgo? ==>
              (1 <= r.minutes < 60 && r.minutes * 60000 <= nowMs - commentMs.value < (r.minutes + 1) * 60000)
    ensures r.HoursAgo? ==>
              (1 <= r.hours < 24 && r.hours * 3600000 <= nowMs - commentMs.value < (r.hours + 1) * 3600000)
    ensures r.DaysAgo? ==>
              (1 <= r.days && r.days * 86400000 <= nowMs - commentMs.value < (r.days + 1) * 86400000)
  {
    match commentMs
    case None => NotANumber
    case Some(d) =>
      var seconds := (nowMs - d) / 1000;
      FloorOfFloor(nowMs - d);
      if seconds < 60 then JustNow
      else if seconds < 3600 then MinutesAgo(seconds / 60)
      else if seconds < 86400 then HoursAgo(seconds / 3600)
      else DaysAgo(seconds / 86400)
  }

  /** Dividing the whole seconds again is dividing the milliseconds once. */
  lemma FloorOfFloor(x: int)
    ensures x / 1000 < 60 <==> x < 60000
    ensures x / 1000 < 3600 <==> x < 3600000
    ensures x / 1000 < 86400 <==> x < 86400000
    ensures (x / 1000) / 60 == x / 60000
    ensures (x / 1000) / 3600 == x / 3600000
    ensures (x / 1000) / 86400 == x / 86400000
  {
    var s, r := x / 1000, x % 1000;
    assert x == s * 1000 + r && 0 <= r < 1000;
    var m, q := s / 60, s % 60;
    assert x == m * 60000 + (q * 1000 + r) && 0 <= q * 1000 + r < 60000;
    var h, p := s / 3600, s % 3600;
    assert x == h * 3600000 + (p * 1000 + r) && 0 <= p * 1000 + r < 3600000;
    var d, e := s / 86400, s % 86400;
    assert x == d * 86400000 + (e * 1000 + r) && 0 <= e * 1000 + r < 86400000;
  }

  /** A later clock never moves a comment to a younger bucket. */
  lemma TimeAgoMonotone(commentMs: int, now1: int, now2: int)
    requires now1 <= now2
    ensures Rank(FormatTimeAgo(Some(commentMs), now1)) <= Rank(FormatTimeAgo(Some(commentMs), now2))
  {
  }

  /** The buckets from youngest to oldest. */
  function Rank(a: TimeAgo): nat {
    match a
    case JustNow => 0
    case MinutesAgo(_) => 1
    case HoursAgo(_) => 2
    case DaysAgo(_) => 3
    case NotANumber => 4
  }

  /** The number a bucket carries (0 for the two without one). */
  function Count(a: TimeAgo): int {
    match a
    case MinutesAgo(n) => n
    case HoursAgo(n) => n
    case DaysAgo(n) => n
    case _ => 0
  }

  /** The rendered label: the bucket's number and a space before its unit,
      `NaN ` before the days unit for an invalid date. */
  function TimeAgoText(a: TimeAgo, t: string -> string): (s: string)
    ensures a.JustNow? ==> s == OrFallback(Some(t("Just now")), "Vừa xong")
    ensures a.NotANumber? ==> |s| >= 4 && s[..4] == "NaN "
    ensures (a.MinutesAgo? || a.HoursAgo? || a.DaysAgo?) && Count(a) >= 0 ==>
              var d := Decimal(Count(a));
              |d| < |s| && s[..|d|] == d && s[|d|] == ' '
  {
    match a
    case JustNow => OrFallback(Some(t("Just now")), "Vừa xong")
    case MinutesAgo(n) => IntString(n) + " " + OrFallback(Some(t("minutes ago")), "phút trước")
    case HoursAgo(n) => IntString(n) + " " + OrFallback(Some(t("hours ago")), "giờ trước")
    case DaysAgo(n) => IntString(n) + " " + OrFallback(Some(t("days ago")), "ngày trước")
    case NotANumber => "NaN " + OrFallback(Some(t("days ago")), "ngày trước")
  }
  /** Once a comment is a minute old, its label starts with the whole number
      of minutes, hours or days it has aged, and that number reads back. */
  lemma TimeAgoLabelReadsBack(commentMs: int, nowMs: int, t: string -> string)
    requires 60000 <= nowMs - commentMs
    ensures var a := FormatTimeAgo(Some(commentMs), nowMs);
            var s := TimeAgoText(a, t);
            var d := Decimal(Count(a));
            1 <= Count(a) && |d| < |s| && s[..|d|] == d && s[|d|] == ' ' && DigitsValue(s[..|d|]) == Count(a)
  {
    var a := FormatTimeAgo(Some(commentMs), nowMs);
    DecimalRoundTrip(Count(a));
  }


  // ------------------------------------------------------------ heading ids

  /** A literal `<h1>` … `<h5>` starts at position `i`: what `/<(h[1-5])>/g` matches. */
  predicate TagAt(s: string, i: nat) {
    i + 4 <= |s| && s[i] == '<' && s[i + 1] == 'h' && '1' <= s[i + 2] <= '5' && s[i + 3] == '>'
  }

  /** `w` is one such tag. */
  predicate IsHeadingTag(w: string) {
    |w| == 4 && TagAt(w, 0)
  }

  /** No match of the pattern starts anywhere in `s`. */
  predicate NoHeadingTag(s: string) {
    forall i: nat :: i < |s| ==> !TagAt(s, i)
  }

  /** The tag `<hN id="section-k">`. */
  function TaggedHeading(level: char, k: nat): string {
    "<h" + [level] + " id=\"section-" + Decimal(k) + "\">"
  }

  /** The content after a global replace scanning left to right, the `k`-th
      match so far receiving `section-k`. */
  function WithHeadingIds(s: string, k: nat): string
    decreases |s|
  {
    if TagAt(s, 0) then TaggedHeading(s[2], k) + WithHeadingIds(s[4..], k + 1)
    else if s == [] then []
    else [s[0]] + WithHeadingIds(s[1..], k)
  }

  /** The replace effect with its running `index` counter. The table of
      contents always holds `section-index` at `index` or nothing, so the id
      used is `section-index` either way. */
  method InjectHeadingIds(content: string) returns (modified: string)
    ensures modified == WithHeadingIds(content, 0)
  {
    modified := "";
    var i := 0;
    var index := 0;
    while i < |content|
      invariant 0 <= i <= |content|
      invariant modified + WithHeadingIds(content[i..], index) == WithHeadingIds(content, 0)
      decreases |content| - i
    {
      var rest := content[i..];
      if TagAt(content, i) {
        assert TagAt(rest, 0);
        assert rest[4..] == content[i + 4..];
        modified := modified + TaggedHeading(content[i + 2], index);
        index := index + 1;
        i := i + 4;
      } else {
        assert !TagAt(rest, 0);
        assert rest[1..] == content[i + 1..];
        modified := modified + [content[i]];
        i := i + 1;
      }
    }
  }

  /** Text without a tag passes through unchanged. */
  lemma {:induction false} NoTagUnchanged(s: string, k: nat)
    requires NoHeadingTag(s)
    ensures WithHeadingIds(s, k) == s
    decreases |s|
  {
    if s != [] {
      assert !TagAt(s, 0);
      assert NoHeadingTag(s[1..]) by {
        forall i: nat | i < |s[1..]|
          ensures !TagAt(s[1..], i)
        {
          assert !TagAt(s, i + 1);
        }
      }
      NoTagUnchanged(s[1..], k);
    }
  }

  /** A tag at the front is replaced, and the scan goes on after it. */
  lemma TagInFront(tag: string, b: string, k: nat)
    requires IsHeadingTag(tag)
    ensures WithHeadingIds(tag + b, k) == TaggedHeading(tag[2], k) + WithHeadingIds(b, k + 1)
  {
    var s := tag + b;
    assert TagAt(s, 0) && s[2] == tag[2];
    assert s[4..] == b;
  }

  /** The first character of tag-free text in front of a tag is copied. */
  lemma CopyInFront(a: string, rest: string, k: nat)
    requires a != [] && NoHeadingTag(a) && rest != [] && rest[0] == '<'
    ensures NoHeadingTag(a[1..])
    ensures WithHeadingIds(a + rest, k) == [a[0]] + WithHeadingIds(a[1..] + rest, k)
  {
    var s := a + rest;
    assert !TagAt(s, 0) by {
      if |a| >= 4 {
        assert !TagAt(a, 0);
      } else {
        assert s[|a|] == '<';
      }
    }
    forall i: nat | i < |a[1..]|
      ensures !TagAt(a[1..], i)
    {
      assert !TagAt(a, i + 1);
    }
    assert s[1..] == a[1..] + rest;
  }

  /** The first tag of the content receives `section-k`, the text before it is
      untouched, and the scan resumes after it with `k + 1`: by induction,
      the i-th tag receives `section-i` and nothing else changes. */
  lemma FirstTagGetsNextId(a: string, tag: string, b: string, k: nat)
    requires NoHeadingTag(a) && IsHeadingTag(tag)
    ensures WithHeadingIds(a + tag + b, k) == a + TaggedHeading(tag[2], k) + WithHeadingIds(b, k + 1)
  {
    var rest := tag + b;
    assert a + tag + b == a + rest;
    TagInFront(tag, b, k);
    var x := TaggedHeading(tag[2], k) + WithHeadingIds(b, k + 1);
    TaggedTextCopied(a, rest, k, x);
    assert a + TaggedHeading(tag[2], k) + WithHeadingIds(b, k + 1) == a + x;
  }

  /** Tag-free text in front of content starting with a tag is copied as
      it is, whatever the rest becomes. */
  lemma {:induction false} TaggedTextCopied(a: string, rest: string, k: nat, x: string)
    requires NoHeadingTag(a) && rest != [] && rest[0] == '<'
    requires WithHeadingIds(rest, k) == x
    ensures WithHeadingIds(a + rest, k) == a + x
    decreases |a|
  {
    if a == [] {
      assert a + rest == rest;
    } else {
      CopyInFront(a, rest, k);
      TaggedTextCopied(a[1..], rest, k, x);
      assert [a[0]] + (a[1..] + x) == a + x;
    }
  }

  // -------------------------------------------------------------- the page

  /** The fields of `pageData` the page reads. */
  datatype PageData = PageData(content: Option<string>, comments: Option<seq<Comment>>)

  /** The component's state. */
  class PostView {
    var comments: seq<Comment>
    var newComment: string
    var editingCommentId: Option<string>
    var editContent: string
    var isLoggedIn: bool
    var isSubmitting: bool
    var currentUser: Option<Member>
    var normalContent: string

    constructor ()
      ensures comments == [] && newComment == "" && editingCommentId.None? && editContent == ""
      ensures !isLoggedIn && !isSubmitting && currentUser.None? && normalContent == ""
    {
      comments := [];
      newComment := "";
      editingCommentId := None;
      editContent := "";
      isLoggedIn := false;
      isSubmitting := false;
      currentUser := None;
      normalContent := "";
    }

    /** The mount effect: a stored user logs the page in. */
    method Mount(stored: Option<Member>)
      modifies this
      ensures isLoggedIn == (old(isLoggedIn) || stored.Some?)
      ensures currentUser == if stored.Some? then stored else old(currentUser)
      ensures comments == old(comments) && newComment == old(newComment) && editingCommentId == old(editingCommentId)
      ensures editContent == old(editContent) && isSubmitting == old(isSubmitting) && normalContent == old(normalContent)
    {
      if stored.Some? {
        isLoggedIn := true;
        currentUser := stored;
      }
    }

    /** The `pageData` effect: the content with heading ids, and the comments
        (an absent list read as empty). */
    method LoadPage(pageData: Option<PageData>)
      modifies this
      ensures pageData.None? ==> normalContent == old(normalContent) && comments == old(comments)
      ensures pageData.Some? ==> normalContent == WithHeadingIds(pageData.value.content.GetOr(""), 0)
      ensures pageData.Some? ==> comments == pageData.value.comments.GetOr([])
      ensures newComment == old(newComment) && editingCommentId == old(editingCommentId) && editContent == old(editContent)
      ensures isLoggedIn == old(isLoggedIn) && isSubmitting == old(isSubmitting) && currentUser == old(currentUser)
    {
      if pageData.None? {
        return;
      }
      var postContent := pageData.value.content.GetOr("");
      normalContent := InjectHeadingIds(postContent);
      comments := pageData.value.comments.GetOr([]);
    }

    /** `handlePostComment` given how `createComment` settled; `called` is
        whether the call was made. A blank input changes nothing. */
    method HandlePostComment(created: Settled<Comment>) returns (called: bool)
      modifies this
      ensures called <==> !IsBlank(old(newComment))
      ensures !called ==> isSubmitting == old(isSubmitting)
      ensures called ==> !isSubmitting
      ensures comments == if called && created.Resolved? then [created.value] + old(comments) else old(comments)
      ensures newComment == if called && created.Resolved? then "" else old(newComment)
      ensures called && created.Resolved? ==> PostButtonDisabled()
      ensures editingCommentId == old(editingCommentId) && editContent == old(editContent)
      ensures isLoggedIn == old(isLoggedIn) && currentUser == old(currentUser) && normalContent == old(normalContent)
    {
      called := !IsBlank(newComment);
      if !called {
        return;
      }
      isSubmitting := true;
      if created.Resolved? {
        comments := [created.value] + comments;
        newComment := "";
      }
      isSubmitting := false;
    }

    /** `handleEditComment` given how `updateComment` settled. A blank edit
        text changes nothing; a success rewrites the matching comments and
        leaves edit mode. */
    method HandleEditComment(commentId: string, updated: Settled<()>) returns (called: bool)
      modifies this
      ensures called <==> !IsBlank(old(editContent))
      ensures !called ==> isSubmitting == old(isSubmitting)
      ensures called ==> !isSubmitting
      ensures called && updated.Resolved? ==>
                comments == WithContent(old(comments), commentId, old(editContent)) && editingCommentId.None? && editContent == ""
      ensures !(called && updated.Resolved?) ==>
                comments == old(comments) && editingCommentId == old(editingCommentId) && editContent == old(editContent)
      ensures newComment == old(newComment)
      ensures isLoggedIn == old(isLoggedIn) && currentUser == old(currentUser) && normalContent == old(normalContent)
    {
      var text := editContent;
      called := !IsBlank(text);
      if !called {
        return;
      }
      var edited := WithContent(comments, commentId, text);
      isSubmitting := true;
      if updated.Resolved? {
        comments := edited;
        editingCommentId := None;
        editContent := "";
      }
      isSubmitting := false;
    }

    /** `handleDeleteComment` given how `deleteComment` settled. */
    method HandleDeleteComment(commentId: string, deleted: Settled<()>)
      modifies this
      ensures comments == if deleted.Resolved? then Without(old(comments), commentId) else old(comments)
      ensures newComment == old(newComment) && editingCommentId == old(editingCommentId) && editContent == old(editContent)
      ensures isLoggedIn == old(isLoggedIn) && isSubmitting == old(isSubmitting)
      ensures currentUser == old(currentUser) && normalContent == old(normalContent)
    {
      if deleted.Resolved? {
        comments := Without(comments, commentId);
      }
    }

    /** The edit button of an owned comment: edit mode for its id (or "") with its text. */
    method StartEditing(c: Comment)
      modifies this
      ensures editingCommentId == Some(c.id.GetOr("")) && editContent == c.content
      ensures comments == old(comments) && newComment == old(newComment)
      ensures isLoggedIn == old(isLoggedIn) && isSubmitting == old(isSubmitting)
      ensures currentUser == old(currentUser) && normalContent == old(normalContent)
    {
      editingCommentId := Some(c.id.GetOr(""));
      editContent := c.content;
    }

    /** The cancel button of the edit box. */
    method CancelEditing()
      modifies this
      ensures editingCommentId.None? && editContent == ""
      ensures comments == old(comments) && newComment == old(newComment)
      ensures isLoggedIn == old(isLoggedIn) && isSubmitting == old(isSubmitting)
      ensures currentUser == old(currentUser) && normalContent == old(normalContent)
    {
      editingCommentId := None;
      editContent := "";
    }

    /** `isCommentOwner` on the stored user. */
    predicate IsCommentOwner(c: Comment)
      reads this
      ensures currentUser.None? ==> !IsCommentOwner(c)
      ensures IsCommentOwner(c) ==> c.commenterId == currentUser.value.id
    {
      IsOwner(currentUser, c)
    }

    /** The post button: disabled while submitting or while the input is blank. */
    predicate PostButtonDisabled()
      reads this
      ensures !PostButtonDisabled() ==>
                !isSubmitting && exists i :: 0 <= i < |newComment| && !IsJsWhitespace(newComment[i])
    {
      BlankIffAllWhitespace(newComment);
      isSubmitting || IsBlank(newComment)
    }
  }
}
