/**
 * The reaction and comment handlers of the watch page (`src/pages/Watch.tsx`)
 * as atomic transitions of the page's state. Each handler is given whether
 * a user is signed in and, when it makes a request, the server's reply;
 * it returns the new state, the toasts it shows and the requests it sends.
 * What the response interceptor does to a failed request is `ApiClient`'s
 * part and is not repeated here.
 */
module Watch {
  import opened Wrappers
  import opened Http
  import opened Text
  import Api

  datatype Video = Video(id: string, likesCount: int)

  /** A comment as listed under the video. */
  datatype Comment = Comment(id: string, content: string, likes: int)

  /** The `data` of a like toggle: whether the video is now liked. */
  datatype LikeData = LikeData(isLiked: bool)

  /** One element of a comment listing's `data`. */
  datatype CommentPage = CommentPage(comments: seq<Comment>)

  datatype Page = Page(
    video: Option<Video>,
    loading: bool,
    comments: seq<Comment>,
    totalLikes: int,
    refreshComments: bool,
    commentText: string,
    isLiked: bool,
    isDisliked: bool,
    isSaved: bool,
    isSubscribed: bool)

  /** What a handler produces: the new state, its toasts, the requests it sent. */
  datatype Step = Step(page: Page, effects: seq<Effect>, calls: seq<Api.Endpoint>)

  const SignInToLikeText := "Please sign in to like videos"
  const SignInToLikeCommentText := "Please sign in to like comments"
  const SignInToDislikeText := "Please sign in to dislike videos"
  const SignInToSaveText := "Please sign in to save videos"
  const SignInToSubscribeText := "Please sign in to subscribe to channels"
  const SignInToCommentText := "Please sign in to comment"
  const EmptyCommentText := "Please enter a comment"
  const LikeFailedText := "Failed to add like. Please try again later."
  const CommentFailedText := "Failed to add comment. Please try again later."
  const VideoFailedText := "Failed to load video. Please try again later."
  const CommentsFailedText := "Failed to load comments. Please try again later."

  /** The page as first rendered: loading, nothing fetched, nothing toggled. */
  function Initial(): Page {
    Page(None, true, [], 0, false, "", false, false, false, false)
  }

  /** Whether a handler turned a guest away: no change, no request, one error toast. */
  predicate TurnedAway(p: Page, s: Step) {
    s.page == p && s.calls == [] && |s.effects| == 1 && s.effects[0].ToastError?
  }

  // ---------------------------------------------------------------------
  // Reactions
  // ---------------------------------------------------------------------

  /**
   * The like button. A guest is turned away. Otherwise the video's like is
   * toggled on the server; on success the page takes the server's
   * `isLiked`, clears any dislike and moves the count by one in that
   * direction; on failure nothing changes but the error toast.
   */
  function Like(p: Page, signedIn: bool, videoId: string, server: ServerReply<Envelope<LikeData>>): (s: Step)
    ensures !signedIn ==> TurnedAway(p, s) && s.effects == [ToastError(SignInToLikeText)]
    ensures signedIn ==> s.calls == [Api.ToggleVideoLike(videoId)]
    ensures signedIn && server.Answered? ==>
      var liked := server.body.data.isLiked;
      s.page.isLiked == liked && !s.page.isDisliked &&
      s.page.totalLikes == p.totalLikes + (if liked then 1 else -1) &&
      s.page == p.(isLiked := liked, isDisliked := false, totalLikes := s.page.totalLikes) &&
      s.effects == [ToastSuccess(if liked then "Added like" else "Removed like")]
    ensures signedIn && !server.Answered? ==> s.page == p && s.effects == [ToastError(LikeFailedText)]
  {
    if !signedIn then Step(p, [ToastError(SignInToLikeText)], [])
    else
      var call := [Api.ToggleVideoLike(videoId)];
      match server
      case Answered(body) =>
        var liked := body.data.isLiked;
        var likes := if liked then p.totalLikes + 1 else p.totalLikes - 1;
        Step(p.(isLiked := liked, isDisliked := false, totalLikes := likes),
             [ToastSuccess(if liked then "Added like" else "Removed like")], call)
      case _ => Step(p, [ToastError(LikeFailedText)], call)
  }

  /**
   * The like button of a comment: on success only the comment listing is
   * asked to refresh; on failure only the error toast is shown.
   */
  function LikeComment(p: Page, signedIn: bool, commentId: string, server: ServerReply<Json>): (s: Step)
    ensures !signedIn ==> TurnedAway(p, s) && s.effects == [ToastError(SignInToLikeCommentText)]
    ensures signedIn ==> s.calls == [Api.ToggleCommentLike(commentId)]
    ensures signedIn && server.Answered? ==>
      s.page == p.(refreshComments := !p.refreshComments) && s.effects == []
    ensures signedIn && !server.Answered? ==> s.page == p && s.effects == [ToastError(LikeFailedText)]
  {
    if !signedIn then Step(p, [ToastError(SignInToLikeCommentText)], [])
    else
      var call := [Api.ToggleCommentLike(commentId)];
      if server.Answered? then Step(p.(refreshComments := !p.refreshComments), [], call)
      else Step(p, [ToastError(LikeFailedText)], call)
  }

  /**
   * The dislike button, local only: flips the dislike, always clears the
   * like, and names the change by the value before the flip.
   */
  function Dislike(p: Page, signedIn: bool): (s: Step)
    ensures !signedIn ==> TurnedAway(p, s) && s.effects == [ToastError(SignInToDislikeText)]
    ensures signedIn ==>
      s.page == p.(isDisliked := !p.isDisliked, isLiked := false) && s.calls == [] &&
      s.effects == [ToastSuccess(if p.isDisliked then "Removed dislike" else "Added dislike")]
  {
    if !signedIn then Step(p, [ToastError(SignInToDislikeText)], [])
    else
      Step(p.(isDisliked := !p.isDisliked, isLiked := false),
           [ToastSuccess(if p.isDisliked then "Removed dislike" else "Added dislike")], [])
  }

  /** The save button, local only: flips the saved flag; the toast names the change by the old value. */
  function Save(p: Page, signedIn: bool): (s: Step)
    ensures !signedIn ==> TurnedAway(p, s) && s.effects == [ToastError(SignInToSaveText)]
    ensures signedIn ==>
      s.page == p.(isSaved := !p.isSaved) && s.calls == [] &&
      s.effects == [ToastSuccess(if p.isSaved then "Removed from saved videos" else "Added to saved videos")]
  {
    if !signedIn then Step(p, [ToastError(SignInToSaveText)], [])
    else
      Step(p.(isSaved := !p.isSaved), [ToastSuccess(if p.isSaved then "Removed from saved videos" else "Added to saved videos")], [])
  }

  /** The subscribe button, local only: flips the subscription; the toast names the change by the old value. */
  function Subscribe(p: Page, signedIn: bool): (s: Step)
    ensures !signedIn ==> TurnedAway(p, s) && s.effects == [ToastError(SignInToSubscribeText)]
    ensures signedIn ==>
      s.page == p.(isSubscribed := !p.isSubscribed) && s.calls == [] &&
      s.effects == [ToastSuccess(if p.isSubscribed then "Unsubscribed from channel" else "Subscribed to channel")]
  {
    if !signedIn then Step(p, [ToastError(SignInToSubscribeText)], [])
    else
      Step(p.(isSubscribed := !p.isSubscribed),
           [ToastSuccess(if p.isSubscribed then "Unsubscribed from channel" else "Subscribed to channel")], [])
  }

  // ---------------------------------------------------------------------
  // Comments
  // ---------------------------------------------------------------------

  /** Typing in the comment box. */
  function EditComment(p: Page, text: string): (q: Page)
    ensures q == p.(commentText := text)
  {
    p.(commentText := text)
  }

  /**
   * Posting a comment. A guest is turned away, then text that trims to
   * nothing is rejected before any request. Otherwise the untrimmed text is
   * posted for the page's video id; on success the box is cleared and the
   * listing asked to refresh; on failure only the error toast is shown.
   */
  function SubmitComment(p: Page, signedIn: bool, videoId: string, server: ServerReply<Json>): (s: Step)
    ensures s.page.isLiked == p.isLiked && s.page.isDisliked == p.isDisliked
    ensures !signedIn ==> TurnedAway(p, s) && s.effects == [ToastError(SignInToCommentText)]
    ensures signedIn && IsBlank(p.commentText) ==> TurnedAway(p, s) && s.effects == [ToastError(EmptyCommentText)]
    ensures signedIn && !IsBlank(p.commentText) ==> s.calls == [Api.AddVideoComment(videoId, p.commentText)]
    ensures signedIn && !IsBlank(p.commentText) && server.Answered? ==>
      s.page == p.(commentText := "", refreshComments := !p.refreshComments) &&
      s.effects == [ToastSuccess("Comment added")]
    ensures signedIn && !IsBlank(p.commentText) && !server.Answered? ==>
      s.page == p && s.effects == [ToastError(CommentFailedText)]
  {
    if !signedIn then Step(p, [ToastError(SignInToCommentText)], [])
    else if Trim(p.commentText) == "" then Step(p, [ToastError(EmptyCommentText)], [])
    else
      var call := [Api.AddVideoComment(videoId, p.commentText)];
      if server.Answered? then
        Step(p.(refreshComments := !p.refreshComments, commentText := ""), [ToastSuccess("Comment added")], call)
      else Step(p, [ToastError(CommentFailedText)], call)
  }

  // ---------------------------------------------------------------------
  // Fetching
  // ---------------------------------------------------------------------

  /**
   * Loading the video named by the route. Without an id nothing happens.
   * Otherwise the first video of the reply becomes the page's video, with
   * its like count; a reply with no video leaves the page without one and
   * fails like a rejected request (reading its like count throws). Loading
   * ends in every case that fetched.
   */
  function FetchVideo(p: Page, videoId: Option<string>, server: ServerReply<Envelope<seq<Video>>>): (s: Step)
    ensures s.page.isLiked == p.isLiked && s.page.isDisliked == p.isDisliked
    ensures (videoId.None? || videoId.value == "") ==> s == Step(p, [], [])
    ensures videoId.Some? && videoId.value != "" ==>
      s.calls == [Api.GetVideoById(videoId.value)] && !s.page.loading
    ensures videoId.Some? && videoId.value != "" && server.Answered? && |server.body.data| > 0 ==>
      s.page == p.(video := Some(server.body.data[0]), totalLikes := server.body.data[0].likesCount, loading := false) &&
      s.effects == []
    ensures videoId.Some? && videoId.value != "" && server.Answered? && |server.body.data| == 0 ==>
      s.page == p.(video := None, loading := false) && s.effects == [ToastError(VideoFailedText)]
    ensures videoId.Some? && videoId.value != "" && !server.Answered? ==>
      s.page == p.(loading := false) && s.effects == [ToastError(VideoFailedText)]
  {
    if videoId.None? || videoId.value == "" then Step(p, [], [])
    else
      var call := [Api.GetVideoById(videoId.value)];
      match server
      case Answered(body) =>
        if |body.data| > 0 then
          Step(p.(video := Some(body.data[0]), totalLikes := body.data[0].likesCount, loading := false), [], call)
        else Step(p.(video := None, loading := false), [ToastError(VideoFailedText)], call)
      case _ => Step(p.(loading := false), [ToastError(VideoFailedText)], call)
  }

  /**
   * Loading the comment listing, run whenever the video or the refresh
   * flag changes. Without a video nothing is requested. A successful reply
   * replaces the listing with its first page's comments; a failed one, or
   * one with no page, keeps the previous listing and shows the error toast.
   */
  function FetchComments(p: Page, server: ServerReply<Envelope<seq<CommentPage>>>): (s: Step)
    ensures s.page.isLiked == p.isLiked && s.page.isDisliked == p.isDisliked
    ensures p.video.None? ==> s == Step(p, [], [])
    ensures p.video.Some? ==> s.calls == [Api.GetVideoComments(p.video.value.id)]
    ensures p.video.Some? && server.Answered? && |server.body.data| > 0 ==>
      s.page == p.(comments := server.body.data[0].comments) && s.effects == []
    ensures p.video.Some? && !(server.Answered? && |server.body.data| > 0) ==>
      s.page == p && s.effects == [ToastError(CommentsFailedText)]
  {
    if p.video.None? then Step(p, [], [])
    else
      var call := [Api.GetVideoComments(p.video.value.id)];
      if server.Answered? && |server.body.data| > 0 then Step(p.(comments := server.body.data[0].comments), [], call)
      else Step(p, [ToastError(CommentsFailedText)], call)
  }

  // ---------------------------------------------------------------------
  // Runs of events
  // ---------------------------------------------------------------------

  datatype Event =
    | LikeVideo(videoId: string, likeReply: ServerReply<Envelope<LikeData>>)
    | LikeAComment(commentId: string, commentLikeReply: ServerReply<Json>)
    | DislikeVideo
    | SaveVideo
    | SubscribeChannel
    | TypeComment(text: string)
    | PostComment(postVideoId: string, postReply: ServerReply<Json>)
    | LoadVideo(routeId: Option<string>, videoReply: ServerReply<Envelope<seq<Video>>>)
    | LoadComments(commentsReply: ServerReply<Envelope<seq<CommentPage>>>)

  /** One user or page event, with whether a user is signed in at the time. */
  datatype Input = Input(signedIn: bool, event: Event)

  /** Whether an event is a click on one of the reaction buttons. */
  predicate IsReaction(e: Event) {
    e.LikeVideo? || e.LikeAComment? || e.DislikeVideo? || e.SaveVideo? || e.SubscribeChannel?
  }

  /** The handler an event runs. */
  function Apply(p: Page, i: Input): Step {
    if IsReaction(i.event) then React(p, i.signedIn, i.event) else Converse(p, i.signedIn, i.event)
  }

  /** The handlers of the reaction buttons. */
  function React(p: Page, signedIn: bool, e: Event): Step
    requires IsReaction(e)
  {
    match e
    case LikeVideo(id, r) => Like(p, signedIn, id, r)
    case LikeAComment(id, r) => LikeComment(p, signedIn, id, r)
    case DislikeVideo => Dislike(p, signedIn)
    case SaveVideo => Save(p, signedIn)
    case SubscribeChannel => Subscribe(p, signedIn)
  }

  /** The handlers of the comment box and the two fetches. */
  function Converse(p: Page, signedIn: bool, e: Event): Step
    requires !IsReaction(e)
  {
    match e
    case TypeComment(text) => Step(EditComment(p, text), [], [])
    case PostComment(id, r) => SubmitComment(p, signedIn, id, r)
    case LoadVideo(id, r) => FetchVideo(p, id, r)
    case LoadComments(r) => FetchComments(p, r)
  }

  /** The page after a run of events. */
  function Run(p: Page, inputs: seq<Input>): Page
    decreases |inputs|
  {
    if |inputs| == 0 then p else Run(Apply(p, inputs[0]).page, inputs[1..])
  }

  /** The video is never shown as both liked and disliked. */
  predicate NotBoth(p: Page) {
    !(p.isLiked && p.isDisliked)
  }

  /** The reaction handlers keep the like and the dislike apart. */
  lemma ReactionsKeepNotBoth(p: Page, signedIn: bool, e: Event)
    requires NotBoth(p) && IsReaction(e)
    ensures NotBoth(React(p, signedIn, e).page)
  {
  }

  /** Typing, posting and fetching never touch the like or the dislike. */
  lemma ConversingKeepsReaction(p: Page, signedIn: bool, e: Event)
    requires !IsReaction(e)
    ensures Converse(p, signedIn, e).page.isLiked == p.isLiked
    ensures Converse(p, signedIn, e).page.isDisliked == p.isDisliked
  {
  }

  /** Every handler keeps the like and the dislike apart. */
  lemma ApplyKeepsNotBoth(p: Page, i: Input)
    requires NotBoth(p)
    ensures NotBoth(Apply(p, i).page)
  {
    if IsReaction(i.event) {
      ReactionsKeepNotBoth(p, i.signedIn, i.event);
    } else {
      ConversingKeepsReaction(p, i.signedIn, i.event);
    }
  }

  /** From any state where they are apart, no run of events shows both a like and a dislike. */
  lemma {:induction false} NeverLikedAndDisliked(p: Page, inputs: seq<Input>)
    requires NotBoth(p)
    ensures NotBoth(Run(p, inputs))
    decreases |inputs|
  {
    if |inputs| > 0 {
      ApplyKeepsNotBoth(p, inputs[0]);
      NeverLikedAndDisliked(Apply(p, inputs[0]).page, inputs[1..]);
    }
  }

  /** In particular, never from the initial page. */
  lemma NeverBothFromStart(inputs: seq<Input>)
    ensures NotBoth(Run(Initial(), inputs))
  {
    NeverLikedAndDisliked(Initial(), inputs);
  }

  /** Whether an event is one of the handlers that require a signed-in user. */
  predicate Guarded(e: Event) {
    !(e.TypeComment? || e.LoadVideo? || e.LoadComments?)
  }

  /** A guest's clicks on the guarded handlers change nothing and request nothing. */
  lemma GuestsChangeNothing(p: Page, e: Event)
    requires Guarded(e)
    ensures TurnedAway(p, Apply(p, Input(false, e)))
  {
  }

  /**
   * A run of guest clicks on guarded handlers leaves the page as it was:
   * only the fetch effects and typing can change it for a guest.
   */
  lemma {:induction false} GuestRunChangesNothing(p: Page, inputs: seq<Input>)
    requires forall k | 0 <= k < |inputs| :: !inputs[k].signedIn && Guarded(inputs[k].event)
    ensures Run(p, inputs) == p
    decreases |inputs|
  {
    if |inputs| > 0 {
      GuestsChangeNothing(p, inputs[0].event);
      assert Apply(p, inputs[0]).page == p;
      GuestRunChangesNothing(p, inputs[1..]);
    }
  }

  /** Saving twice, or subscribing twice, restores the page. */
  lemma ToggleTwice(p: Page)
    ensures Save(Save(p, true).page, true).page == p
    ensures Subscribe(Subscribe(p, true).page, true).page == p
  {
  }

  /**
   * Liking then unliking, as the server reports it, restores the count and
   * leaves the video neither liked nor disliked.
   */
  lemma LikeUnlikeRestoresCount(p: Page, videoId: string)
    ensures var liked := Like(p, true, videoId, Answered(Envelope(LikeData(true)))).page;
      var unliked := Like(liked, true, videoId, Answered(Envelope(LikeData(false)))).page;
      unliked.totalLikes == p.totalLikes && !unliked.isLiked && !unliked.isDisliked
  {
  }

  /** Without a video no comment request is ever sent, whatever the refresh flag does. */
  lemma CommentsNeedVideo(p: Page, server: ServerReply<Envelope<seq<CommentPage>>>)
    requires p.video.None?
    ensures FetchComments(p, server).calls == [] && FetchComments(p.(refreshComments := !p.refreshComments), server).calls == []
  {
  }
}
