/**
 * The home page (`src/pages/Index.tsx`): a grid of videos filtered by a
 * category tab. Every change of tab refetches the listing; a fetch shows
 * placeholders, then either the new videos or an error above the old ones.
 *
 * The page hands `getVideos` the object `{params: {category}}`, and
 * `getVideos` sends its argument as the query parameters, so the category
 * travels one level down, under `params`; the model keeps that nesting.
 */
module IndexPage {
  import opened Wrappers
  import opened Http
  import Api

  datatype Video = Video(id: string)

  /** The listing's payload, `response.data`. */
  datatype Listing = Listing(videos: seq<Video>)

  datatype Page = Page(videos: seq<Video>, loading: bool, activeTab: string, error: Option<string>)

  /** One transition: the new page and the requests it sent. */
  datatype Step = Step(page: Page, calls: seq<Api.Endpoint>)

  const AllTab := "all"
  const LoadFailedText := "Failed to load videos. Please try again later."

  /** The page as it first renders: no videos, loading, the `all` tab. */
  function Initial(): Page {
    Page([], true, AllTab, None)
  }

  /** The category sent for a tab: none for `all`, else the tab's value. */
  function Category(tab: string): (c: Json)
    ensures c == JUndefined <==> tab == AllTab
    ensures tab != AllTab ==> c == JStr(tab)
  {
    if tab != AllTab then JStr(tab) else JUndefined
  }

  /** The argument the page gives `getVideos`. */
  function Query(tab: string): Json {
    JObj(map["params" := JObj(map["category" := Category(tab)])])
  }

  /** A tab's category reads back from the request's query parameters, under `params`. */
  lemma CategoryTravelsUnderParams(tab: string)
    ensures var params := Api.Request(Api.GetVideos(Query(tab))).params;
      params.JObj? && "params" in params.fields && params.fields["params"].JObj? &&
      "category" in params.fields["params"].fields &&
      params.fields["params"].fields["category"] == Category(tab)
  {
  }

  /**
   * `fetchVideos`: loading starts and the error clears; then the listing
   * replaces the videos, or the error is set and the old videos stay.
   * Loading ends either way.
   */
  function Fetch(p: Page, server: ServerReply<Envelope<Listing>>): (s: Step)
    ensures s.calls == [Api.GetVideos(Query(p.activeTab))]
    ensures !s.page.loading && s.page.activeTab == p.activeTab
    ensures server.Answered? ==> s.page.videos == server.body.data.videos && s.page.error.None?
    ensures !server.Answered? ==> s.page.videos == p.videos && s.page.error == Some(LoadFailedText)
  {
    var started := p.(loading := true, error := None);
    var call := Api.GetVideos(Query(p.activeTab));
    match server
    case Answered(body) => Step(started.(videos := body.data.videos, loading := false), [call])
    case _ => Step(started.(error := Some(LoadFailedText), loading := false), [call])
  }

  /** Mounting the page fetches the `all` listing. */
  function Mount(server: ServerReply<Envelope<Listing>>): (s: Step)
    ensures s.calls == [Api.GetVideos(Query(AllTab))]
    ensures s.page.activeTab == AllTab && !s.page.loading
  {
    Fetch(Initial(), server)
  }

  /**
   * Choosing a tab: the effect depends on `activeTab` alone, so choosing
   * the tab already shown does nothing and any other tab refetches.
   */
  function SelectTab(p: Page, tab: string, server: ServerReply<Envelope<Listing>>): (s: Step)
    ensures s.page.activeTab == tab
  {
    if tab == p.activeTab then Step(p, []) else Fetch(p.(activeTab := tab), server)
  }

  /** A refetch happens exactly when the tab changes. */
  lemma RefetchIffTabChanged(p: Page, tab: string, server: ServerReply<Envelope<Listing>>)
    ensures SelectTab(p, tab, server).calls != [] <==> tab != p.activeTab
    ensures tab == p.activeTab ==> SelectTab(p, tab, server).page == p
    ensures tab != p.activeTab ==> SelectTab(p, tab, server).calls == [Api.GetVideos(Query(tab))]
  {
  }

  /** A failed fetch leaves the shown videos as they were, whichever tab asked. */
  lemma FailureKeepsVideos(p: Page, tab: string, server: ServerReply<Envelope<Listing>>)
    requires !server.Answered?
    ensures SelectTab(p, tab, server).page.videos == p.videos
    ensures tab != p.activeTab ==> SelectTab(p, tab, server).page.error == Some(LoadFailedText)
  {
  }

  /** Whatever the outcome, a fetch never leaves the page loading. */
  lemma FetchSettles(p: Page, tab: string, server: ServerReply<Envelope<Listing>>)
    requires !p.loading
    ensures !SelectTab(p, tab, server).page.loading
  {
  }
}
