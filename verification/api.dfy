/**
 * The REST wrappers of `src/services/api.ts`: which method and path each
 * wrapper sends, with which query parameters and body. `Resolve` is the
 * partner of `Request`: it reads an endpoint back from a method and path,
 * and `ResolveRequest` proves that no two well-formed endpoints share a
 * request.
 */
module Api {
  import opened Wrappers
  import opened Http
  import opened Text

  /** One outgoing request, as the wrapper hands it to the axios instance. */
  datatype Call = Call(verb: Method, path: string, params: Json, body: Body)

  /** The wrappers of `userApi`, `videoApi`, `commentApi` and `likeApi`. */
  datatype Endpoint =
    | GetProfile(userId: string)
    | GetChannelProfile(channelId: string)
    | UpdateProfile(data: Body)
    | GetCurrentUser
    | UpdateAvatar(data: Body)
    | UpdateCover(data: Body)
    | Login(email: string, password: string)
    | Register(form: FormData)
    | GetVideoById(videoId: string)
    | GetVideos(query: Json)
    | GetVideoComments(videoId: string)
    | AddVideoComment(commentVideoId: string, content: string)
    | ToggleVideoLike(likedVideoId: string)
    | ToggleCommentLike(commentId: string)
    | GetAllLikedVideos

  /**
   * The `/`-separated segments of each wrapper's path: `["", "users",
   * "channel", id]` is the template `/users/channel/${id}`.
   */
  function Segments(e: Endpoint): seq<string> {
    match e
    case GetProfile(id) => ["", "users", id]
    case GetChannelProfile(id) => ["", "users", "channel", id]
    case UpdateProfile(_) => ["", "users", "update"]
    case GetCurrentUser => ["", "users", "get-current-user"]
    case UpdateAvatar(_) => ["", "users", "avatar"]
    case UpdateCover(_) => ["", "users", "coverimage"]
    case Login(_, _) => ["", "users", "login"]
    case Register(_) => ["", "users", "register"]
    case GetVideoById(id) => ["", "videos", "video", id]
    case GetVideos(_) => ["", "videos", ""]
    case GetVideoComments(id) => ["", "comments", "videos", id]
    case AddVideoComment(id, _) => ["", "comments", "v", id]
    case ToggleVideoLike(id) => ["", "likes", "v", id]
    case ToggleCommentLike(id) => ["", "likes", "c", id]
    case GetAllLikedVideos => ["", "likes", ""]
  }

  /** The path each wrapper requests, relative to the API base URL. */
  function Path(e: Endpoint): string {
    Join(Segments(e), '/')
  }

  /** The identity check requests `/users/get-current-user`. */
  lemma IdentityPath()
    ensures Path(GetCurrentUser) == "/users/get-current-user"
  {
    Join3("", "users", "get-current-user", '/');
  }

  /** A registration posts to `/users/register`. */
  lemma RegisterPath(form: FormData)
    ensures Path(Register(form)) == "/users/register"
  {
    Join3("", "users", "register", '/');
  }

  /** A login posts to `/users/login`. */
  lemma LoginPath(email: string, password: string)
    ensures Path(Login(email, password)) == "/users/login"
  {
    Join3("", "users", "login", '/');
  }

  /** The listing requests `/videos/`, with the filter as query parameters. */
  lemma ListingPath(query: Json)
    ensures Path(GetVideos(query)) == "/videos/"
  {
    Join3("", "videos", "", '/');
  }

  /** A channel profile is requested at `/users/channel/${id}`. */
  lemma ChannelPath(id: string)
    ensures Path(GetChannelProfile(id)) == "/users/channel/" + id
  {
    Join4("", "users", "channel", id, '/');
  }

  /** A video is requested at `/videos/video/${id}`. */
  lemma VideoPath(id: string)
    ensures Path(GetVideoById(id)) == "/videos/video/" + id
  {
    Join4("", "videos", "video", id, '/');
  }

  /** A video's comments are requested at `/comments/videos/${id}`. */
  lemma CommentsPath(id: string)
    ensures Path(GetVideoComments(id)) == "/comments/videos/" + id
  {
    Join4("", "comments", "videos", id, '/');
  }

  /** A comment is posted to `/comments/v/${id}`. */
  lemma AddCommentPath(id: string, content: string)
    ensures Path(AddVideoComment(id, content)) == "/comments/v/" + id
  {
    Join4("", "comments", "v", id, '/');
  }

  /** A video like is toggled at `/likes/v/${id}`. */
  lemma VideoLikePath(id: string)
    ensures Path(ToggleVideoLike(id)) == "/likes/v/" + id
  {
    Join4("", "likes", "v", id, '/');
  }

  /** A comment like is toggled at `/likes/c/${id}`. */
  lemma CommentLikePath(id: string)
    ensures Path(ToggleCommentLike(id)) == "/likes/c/" + id
  {
    Join4("", "likes", "c", id, '/');
  }

  /** Only the profile, avatar, cover, login, register and comment writes POST. */
  function MethodOf(e: Endpoint): Method {
    match e
    case UpdateProfile(_) => Post
    case UpdateAvatar(_) => Post
    case UpdateCover(_) => Post
    case Login(_, _) => Post
    case Register(_) => Post
    case AddVideoComment(_, _) => Post
    case _ => Get
  }

  /** The JSON body `{ email, password }` of a login. */
  function LoginBody(email: string, password: string): Json {
    JObj(map["email" := JStr(email), "password" := JStr(password)])
  }

  /** The whole `params` object `{ videoId, content }` is posted as the comment body. */
  function CommentBody(videoId: string, content: string): Json {
    JObj(map["videoId" := JStr(videoId), "content" := JStr(content)])
  }

  /** The request a wrapper sends. */
  function Request(e: Endpoint): (c: Call)
    ensures c.verb == MethodOf(e) && c.path == Path(e)
    ensures c.params != JUndefined ==> e.GetVideos?
    ensures c.verb == Get ==> c.body == NoBody
  {
    var params := if e.GetVideos? then e.query else JUndefined;
    var body :=
      match e
      case UpdateProfile(d) => d
      case UpdateAvatar(d) => d
      case UpdateCover(d) => d
      case Login(em, pw) => JsonBody(LoginBody(em, pw))
      case Register(f) => Multipart(f)
      case AddVideoComment(id, text) => JsonBody(CommentBody(id, text))
      case _ => NoBody;
    Call(MethodOf(e), Path(e), params, body)
  }

  // ---------------------------------------------------------------------
  // Reading a request back
  // ---------------------------------------------------------------------

  /**
   * The ids that fill a path segment: no `/` inside, and a profile id
   * other than `get-current-user` (that one IS the current-user path).
   */
  predicate WellFormed(e: Endpoint) {
    match e
    case GetProfile(id) => '/' !in id && id != "get-current-user"
    case GetChannelProfile(id) => '/' !in id
    case GetVideoById(id) => '/' !in id
    case GetVideoComments(id) => '/' !in id
    case AddVideoComment(id, _) => '/' !in id
    case ToggleVideoLike(id) => '/' !in id
    case ToggleCommentLike(id) => '/' !in id
    case _ => true
  }

  /** Reads the endpoint back from a request, or `None` for an unknown request. */
  function Resolve(c: Call): Option<Endpoint> {
    var s := Split(c.path, '/');
    if |s| < 3 || |s| > 4 || s[0] != "" then None
    else if c.verb == Get then
      if c.body != NoBody then None
      else if |s| == 3 then ResolveGet(s[1], s[2], c.params)
      else ResolveGetById(s[1], s[2], s[3])
    else if |s| == 3 then
      if s[1] == "users" then ResolvePostUser(s[2], c.body) else None
    else if s[1] == "comments" && s[2] == "v" then ResolveComment(s[3], c.body)
    else None
  }

  /** GET `/resource/name`. */
  function ResolveGet(resource: string, name: string, params: Json): Option<Endpoint> {
    if resource == "users" then
      if name == "get-current-user" then Some(GetCurrentUser) else Some(GetProfile(name))
    else if resource == "videos" && name == "" then Some(GetVideos(params))
    else if resource == "likes" && name == "" then Some(GetAllLikedVideos)
    else None
  }

  /** GET `/resource/kind/id`. */
  function ResolveGetById(resource: string, kind: string, id: string): Option<Endpoint> {
    if resource == "users" && kind == "channel" then Some(GetChannelProfile(id))
    else if resource == "videos" && kind == "video" then Some(GetVideoById(id))
    else if resource == "comments" && kind == "videos" then Some(GetVideoComments(id))
    else if resource == "likes" && kind == "v" then Some(ToggleVideoLike(id))
    else if resource == "likes" && kind == "c" then Some(ToggleCommentLike(id))
    else None
  }

  /** POST `/users/name`. */
  function ResolvePostUser(name: string, body: Body): Option<Endpoint> {
    if name == "update" then Some(UpdateProfile(body))
    else if name == "avatar" then Some(UpdateAvatar(body))
    else if name == "coverimage" then Some(UpdateCover(body))
    else if name == "login" then
      match body
      case JsonBody(JObj(m)) =>
        if "email" in m && "password" in m && m["email"].JStr? && m["password"].JStr?
           && JObj(m) == LoginBody(m["email"].s, m["password"].s)
        then Some(Login(m["email"].s, m["password"].s))
        else None
      case _ => None
    else if name == "register" then
      if body.Multipart? then Some(Register(body.form)) else None
    else None
  }

  /** POST `/comments/v/id`. */
  function ResolveComment(id: string, body: Body): Option<Endpoint> {
    match body
    case JsonBody(JObj(m)) =>
      if "content" in m && m["content"].JStr? && JObj(m) == CommentBody(id, m["content"].s)
      then Some(AddVideoComment(id, m["content"].s))
      else None
    case _ => None
  }

  /** A well-formed endpoint's path splits back into its segments. */
  lemma SplitPath(e: Endpoint)
    requires WellFormed(e)
    ensures Split(Path(e), '/') == Segments(e)
  {
    SplitJoin(Segments(e), '/');
  }

  /** Among well-formed endpoints, only the identity check has the identity path. */
  lemma IdentityPathUnique(e: Endpoint)
    requires WellFormed(e) && Path(e) == Path(GetCurrentUser)
    ensures e == GetCurrentUser
  {
    SplitPath(e);
    SplitPath(GetCurrentUser);
  }

  /** A well-formed GET request is read back as the endpoint that sent it. */
  lemma ResolveGetRequest(e: Endpoint)
    requires WellFormed(e) && MethodOf(e) == Get
    ensures Resolve(Request(e)) == Some(e)
  {
    if e.GetProfile? || e.GetCurrentUser? || e.GetVideos? || e.GetAllLikedVideos? {
      ResolveTwoSegmentGet(e);
    } else {
      ResolveThreeSegmentGet(e);
    }
  }

  /** GET `/resource/name`: profiles, the current user, the listing and the liked list. */
  lemma ResolveTwoSegmentGet(e: Endpoint)
    requires WellFormed(e)
    requires e.GetProfile? || e.GetCurrentUser? || e.GetVideos? || e.GetAllLikedVideos?
    ensures Resolve(Request(e)) == Some(e)
  {
    SplitPath(e);
    var c := Request(e);
    var s := Segments(e);
    assert Resolve(c) == ResolveGet(s[1], s[2], c.params);
  }

  /** GET `/resource/kind/id`: a channel, a video, its comments and the two like toggles. */
  lemma ResolveThreeSegmentGet(e: Endpoint)
    requires WellFormed(e)
    requires e.GetChannelProfile? || e.GetVideoById? || e.GetVideoComments? || e.ToggleVideoLike? || e.ToggleCommentLike?
    ensures Resolve(Request(e)) == Some(e)
  {
    SplitPath(e);
    var c := Request(e);
    var s := Segments(e);
    assert Resolve(c) == ResolveGetById(s[1], s[2], s[3]);
  }

  /** A well-formed POST request is read back as the endpoint that sent it. */
  lemma ResolvePostRequest(e: Endpoint)
    requires WellFormed(e) && MethodOf(e) == Post
    ensures Resolve(Request(e)) == Some(e)
  {
    if e.Login? {
      ResolveLoginRequest(e.email, e.password);
    } else if e.AddVideoComment? {
      ResolveCommentRequest(e.commentVideoId, e.content);
    } else {
      ResolveUserWriteRequest(e);
    }
  }

  /** The profile, avatar, cover and register writes are read back from their path and body. */
  lemma ResolveUserWriteRequest(e: Endpoint)
    requires e.UpdateProfile? || e.UpdateAvatar? || e.UpdateCover? || e.Register?
    ensures Resolve(Request(e)) == Some(e)
  {
    SplitPath(e);
    var c := Request(e);
    assert Resolve(c) == ResolvePostUser(Segments(e)[2], c.body);
  }

  /** A login is read back with the credentials its body carries. */
  lemma ResolveLoginRequest(email: string, password: string)
    ensures Resolve(Request(Login(email, password))) == Some(Login(email, password))
  {
    var e := Login(email, password);
    SplitPath(e);
    var c := Request(e);
    assert Resolve(c) == ResolvePostUser("login", c.body);
    var m := LoginBody(email, password).fields;
    assert m["email"] == JStr(email) && m["password"] == JStr(password);
  }

  /** A comment is read back with the video id of its path and the content of its body. */
  lemma ResolveCommentRequest(id: string, content: string)
    requires '/' !in id
    ensures Resolve(Request(AddVideoComment(id, content))) == Some(AddVideoComment(id, content))
  {
    var e := AddVideoComment(id, content);
    SplitPath(e);
    var c := Request(e);
    assert Resolve(c) == ResolveComment(id, c.body);
    var m := CommentBody(id, content).fields;
    assert m["content"] == JStr(content);
  }

  /** Every well-formed request is read back as the endpoint that sent it. */
  lemma ResolveRequest(e: Endpoint)
    requires WellFormed(e)
    ensures Resolve(Request(e)) == Some(e)
  {
    if MethodOf(e) == Get {
      ResolveGetRequest(e);
    } else {
      ResolvePostRequest(e);
    }
  }

  /** Two well-formed endpoints that send the same request are the same endpoint. */
  lemma RequestInjective(e1: Endpoint, e2: Endpoint)
    requires WellFormed(e1) && WellFormed(e2)
    requires Request(e1) == Request(e2)
    ensures e1 == e2
  {
    ResolveRequest(e1);
    ResolveRequest(e2);
  }
}
