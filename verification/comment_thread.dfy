/**
 * The comment tree of `src/components/CommentItem.tsx`: the reply-group
 * record kept per comment, the view/hide-replies control, the single
 * global reply composer, reply submission, and the recursive rendering of
 * a comment with its open replies. Fetching replies (`onFetchReplies`) and
 * posting one (`onSubmitReply`) belong to the parent page: the first is
 * left opaque, the second appears as the call a submission makes.
 */
module CommentThread {
  import opened Wrappers
  import opened Text

  /** A comment as the tree needs it: its id, text and reply count. */
  datatype Comment = Comment(id: string, content: string, replies: int)

  /** The parent's record for one comment's replies. */
  datatype ReplyGroup = ReplyGroup(loading: bool, open: bool, comments: seq<Comment>, error: Option<string>)

  /** The parent's `replies` object: reply groups by comment id. */
  type ReplyMap = map<string, ReplyGroup>

  /** Replies are never offered below this depth. */
  const MaxDepth := 5
  /** Indentation per nesting level, in pixels. */
  const IndentStep := 24

  /** The view/hide-replies button: its label, whether it is disabled, and the error shown under it. */
  datatype Control = Control(caption: string, disabled: bool, error: Option<string>)

  /** One rendered comment: its id, depth, indentation, whether its composer is shown, and its control. */
  datatype Row = Row(id: string, depth: nat, indent: nat, composer: bool, control: Option<Control>)

  /** What a reply submission leaves: the call made (id and text), the composer text, the active composer. */
  datatype Submission = Submission(call: Option<(string, string)>, replyText: string, activeReplyId: Option<string>)

  /** The record used for a comment that has no entry yet. */
  const DefaultGroup := ReplyGroup(false, false, [], None)

  /** The reply group of a comment: its entry, or the default record when it has none. */
  function GroupOf(replies: ReplyMap, id: string): (g: ReplyGroup)
    ensures id in replies ==> g == replies[id]
    ensures id !in replies ==> !g.loading && !g.open && g.comments == [] && g.error.None?
  {
    if id in replies then replies[id] else DefaultGroup
  }

  /** The label of the control: loading, else hide when open, else view. */
  function Label(count: int, g: ReplyGroup): string {
    if g.loading then "Loading..."
    else if g.open then "Hide " + IntToString(count) + " replies"
    else "View " + IntToString(count) + " replies"
  }

  /**
   * The control exists exactly for a comment with replies above the depth
   * limit; it is disabled while its replies load and shows the group's
   * error when there is a non-empty one.
   */
  function ViewControl(c: Comment, g: ReplyGroup, depth: nat): (r: Option<Control>)
    ensures r.Some? <==> c.replies > 0 && depth < MaxDepth
    ensures r.Some? ==> r.value.disabled == g.loading && r.value.caption == Label(c.replies, g)
    ensures r.Some? ==> (r.value.error.Some? <==> g.error.Some? && g.error.value != "")
    ensures r.Some? && r.value.error.Some? ==> r.value.error == g.error
  {
    if c.replies > 0 && depth < MaxDepth then
      var error := if g.error.Some? && g.error.value != "" then g.error else None;
      Some(Control(Label(c.replies, g), g.loading, error))
    else None
  }

  /**
   * A label that is not `Loading...` names the reply count: stripping the
   * five-character prefix and the ` replies` suffix reads back the count.
   */
  lemma LabelNamesCount(count: int, g: ReplyGroup)
    requires count > 0 && !g.loading
    ensures var text := Label(count, g);
      |text| > 13 && text[..5] == (if g.open then "Hide " else "View ") &&
      text[|text| - 8..] == " replies" &&
      AllDigits(text[5..|text| - 8]) && ParseDecimal(text[5..|text| - 8]) == count
  {
    var digits := IntToString(count);
    var prefix := if g.open then "Hide " else "View ";
    var text := prefix + digits + " replies";
    assert Label(count, g) == text;
    assert text[..5] == prefix;
    assert text[5..|text| - 8] == digits;
    assert text[|text| - 8..] == " replies";
    IntToStringRoundTrip(count);
  }

  // ---------------------------------------------------------------------
  // The reply composer
  // ---------------------------------------------------------------------

  /** Whether a comment shows the reply composer. */
  predicate ComposerOpen(activeReplyId: Option<string>, id: string) {
    activeReplyId == Some(id)
  }

  /** The Reply button: closes this comment's composer if it is the open one, else opens it (closing any other). */
  function ToggleReply(activeReplyId: Option<string>, id: string): (r: Option<string>)
    ensures ComposerOpen(r, id) <==> !ComposerOpen(activeReplyId, id)
    ensures forall other :: other != id ==> !ComposerOpen(r, other)
  {
    if activeReplyId == Some(id) then None else Some(id)
  }

  /** The Cancel button: no composer is open. */
  function CancelReply(activeReplyId: Option<string>): (r: Option<string>)
    ensures forall id :: !ComposerOpen(r, id)
  {
    None
  }

  /** Pressing Reply twice on a comment restores the composer state, when no other composer was open. */
  lemma ToggleReplyTwice(activeReplyId: Option<string>, id: string)
    requires activeReplyId.None? || activeReplyId == Some(id)
    ensures ToggleReply(ToggleReply(activeReplyId, id), id) == activeReplyId
  {
  }

  /**
   * Submitting a reply: text that is empty after trimming changes nothing
   * and calls nothing; otherwise the untrimmed text is submitted for this
   * comment, the text is cleared and the composer closed.
   */
  function SubmitReply(id: string, replyText: string, activeReplyId: Option<string>): (r: Submission)
    ensures IsBlank(replyText) ==> r == Submission(None, replyText, activeReplyId)
    ensures !IsBlank(replyText) ==>
      r.call == Some((id, replyText)) && r.replyText == "" && r.activeReplyId.None?
  {
    if Trim(replyText) == "" then Submission(None, replyText, activeReplyId)
    else Submission(Some((id, replyText)), "", None)
  }

  /** The submit guard rejects exactly the text that trims to nothing. */
  lemma SubmitGuard(id: string, replyText: string, activeReplyId: Option<string>)
    ensures SubmitReply(id, replyText, activeReplyId).call.None? <==> Trim(replyText) == ""
  {
    TrimEmptyIffBlank(replyText);
  }

  /** Submitting again at once makes no second call and changes nothing: the text was cleared. */
  lemma SubmitTwiceIsOnce(id: string, replyText: string, activeReplyId: Option<string>)
    ensures var first := SubmitReply(id, replyText, activeReplyId);
      SubmitReply(id, first.replyText, first.activeReplyId) == first.(call := None)
  {
  }

  // ---------------------------------------------------------------------
  // Rendering the tree
  // ---------------------------------------------------------------------

  /** The row a comment renders at a given depth. */
  function RowOf(c: Comment, replies: ReplyMap, activeReplyId: Option<string>, depth: nat): Row {
    Row(c.id, depth, depth * IndentStep, ComposerOpen(activeReplyId, c.id), ViewControl(c, GroupOf(replies, c.id), depth))
  }

  /** A row indented for its depth, showing the composer exactly when it is the active one. */
  predicate Shown(row: Row, activeReplyId: Option<string>) {
    row.indent == row.depth * IndentStep && (row.composer <==> ComposerOpen(activeReplyId, row.id))
  }

  /** Whether a comment's replies are rendered below it: its group is open and has comments. */
  predicate ShowsReplies(g: ReplyGroup) {
    g.open && |g.comments| > 0
  }

  /** The ids of a sequence of comments, in order. */
  function Ids(cs: seq<Comment>): (r: seq<string>)
    ensures |r| == |cs|
    ensures forall i | 0 <= i < |cs| :: r[i] == cs[i].id
  {
    if |cs| == 0 then [] else [cs[0].id] + Ids(cs[1..])
  }

  /** The ids of the rows at exactly `depth`, in the order they render. */
  function IdsAt(rows: seq<Row>, depth: nat): seq<string> {
    if |rows| == 0 then []
    else (if rows[0].depth == depth then [rows[0].id] else []) + IdsAt(rows[1..], depth)
  }

  lemma {:induction false} IdsAtAppend(a: seq<Row>, b: seq<Row>, depth: nat)
    ensures IdsAt(a + b, depth) == IdsAt(a, depth) + IdsAt(b, depth)
  {
    if |a| == 0 {
      assert a + b == b;
    } else {
      assert (a + b)[1..] == a[1..] + b;
      IdsAtAppend(a[1..], b, depth);
    }
  }

  lemma {:induction false} IdsAtDeeper(rows: seq<Row>, depth: nat)
    requires forall i | 0 <= i < |rows| :: rows[i].depth > depth
    ensures IdsAt(rows, depth) == []
  {
    if |rows| > 0 {
      IdsAtDeeper(rows[1..], depth);
    }
  }

  /** A row followed by deeper rows: only the row is at its depth, and the next level is all below it. */
  lemma IdsBelowRow(row: Row, below: seq<Row>)
    requires forall i | 0 <= i < |below| :: below[i].depth > row.depth
    ensures IdsAt([row] + below, row.depth) == [row.id]
    ensures IdsAt([row] + below, row.depth + 1) == IdsAt(below, row.depth + 1)
  {
    IdsAtAppend([row], below, row.depth);
    IdsAtAppend([row], below, row.depth + 1);
    IdsAtDeeper(below, row.depth);
    assert IdsAt([row], row.depth) == [row.id] + IdsAt([], row.depth);
    assert IdsAt([row], row.depth + 1) == IdsAt([], row.depth + 1);
  }

  /**
   * A comment renders as its own row followed, when its group is open and
   * non-empty, by each reply rendered one level deeper with the same map
   * and composer. `fuel` bounds the nesting the model follows: the
   * replies appear when it exceeds one.
   */
  function Render(c: Comment, replies: ReplyMap, activeReplyId: Option<string>, depth: nat, fuel: nat): (rows: seq<Row>)
    decreases fuel, 0, 0
    ensures fuel > 0 ==> |rows| >= 1 && rows[0] == RowOf(c, replies, activeReplyId, depth)
    ensures fuel > 0 && !ShowsReplies(GroupOf(replies, c.id)) ==> |rows| == 1
    ensures forall i | 0 <= i < |rows| :: Shown(rows[i], activeReplyId) && rows[i].depth >= depth
    ensures forall i | 1 <= i < |rows| :: rows[i].depth > depth
    ensures fuel > 0 ==> IdsAt(rows, depth) == [c.id]
    ensures fuel > 1 && ShowsReplies(GroupOf(replies, c.id)) ==>
      IdsAt(rows, depth + 1) == Ids(GroupOf(replies, c.id).comments)
    ensures !(fuel > 1 && ShowsReplies(GroupOf(replies, c.id))) ==> IdsAt(rows, depth + 1) == []
  {
    if fuel == 0 then []
    else
      var g := GroupOf(replies, c.id);
      var head := [RowOf(c, replies, activeReplyId, depth)];
      var below := if ShowsReplies(g) then RenderAll(g.comments, replies, activeReplyId, depth + 1, fuel - 1) else [];
      IdsBelowRow(head[0], below);
      head + below
  }

  /**
   * The comments of one group, in order, each rendered at the same depth
   * with its own open replies below it.
   */
  function RenderAll(cs: seq<Comment>, replies: ReplyMap, activeReplyId: Option<string>, depth: nat, fuel: nat): (rows: seq<Row>)
    decreases fuel, 1, |cs|
    ensures forall i | 0 <= i < |rows| :: Shown(rows[i], activeReplyId) && rows[i].depth >= depth
    ensures fuel > 0 ==> IdsAt(rows, depth) == Ids(cs)
    ensures fuel == 0 ==> rows == []
  {
    if |cs| == 0 then []
    else
      var first := Render(cs[0], replies, activeReplyId, depth, fuel);
      var rest := RenderAll(cs[1..], replies, activeReplyId, depth, fuel);
      IdsAtAppend(first, rest, depth);
      first + rest
  }

  /** Whether no two rows render the same comment. */
  predicate DistinctIds(rows: seq<Row>) {
    forall i, j | 0 <= i < j < |rows| :: rows[i].id != rows[j].id
  }

  /**
   * With one global active id, a tree in which every comment appears once
   * shows at most one reply composer.
   */
  lemma AtMostOneComposer(c: Comment, replies: ReplyMap, activeReplyId: Option<string>, depth: nat, fuel: nat)
    requires DistinctIds(Render(c, replies, activeReplyId, depth, fuel))
    ensures var rows := Render(c, replies, activeReplyId, depth, fuel);
      forall i, j | 0 <= i < |rows| && 0 <= j < |rows| && rows[i].composer && rows[j].composer :: i == j
  {
  }
}
