/**
 * The watch-history page (`src/pages/History.tsx`): a guest is sent home,
 * a signed-in viewer's history is fetched and shown grouped by day.
 *
 * The grouping is the source's `reduce` into an object keyed by day: the
 * object is an `Acc`, its keys in insertion order (which is the order
 * `Object.entries` lists them in, since a day string is never an array
 * index) and a map from key to videos. The day of a time stamp, which the
 * source computes with `new Date(...).toDateString()`, is a parameter.
 */
module History {
  import opened Wrappers
  import opened Http
  import Api

  datatype Video = Video(id: string, watchedAt: Option<string>, createdAt: Option<string>, duration: int)

  /** `new Date(stamp).toDateString()`; `None` stands for `undefined`. */
  type DayOf = Option<string> -> string

  const LoginRequiredText := "You need to be logged in to view your history"

  /** `video.watchedAt || video.createdAt`: an empty or missing watch time falls back. */
  function Stamp(v: Video): (r: Option<string>)
    ensures v.watchedAt.Some? && v.watchedAt.value != "" ==> r == v.watchedAt
    ensures v.watchedAt.None? || v.watchedAt.value == "" ==> r == v.createdAt
  {
    if v.watchedAt.Some? && v.watchedAt.value != "" then v.watchedAt else v.createdAt
  }

  /** The day a video is grouped under. */
  function KeyOf(v: Video, day: DayOf): string {
    day(Stamp(v))
  }

  // ---------------------------------------------------------------------
  // The reduction
  // ---------------------------------------------------------------------

  /** The accumulator object: its keys in insertion order, and their videos. */
  datatype Acc = Acc(order: seq<string>, groups: map<string, seq<Video>>)

  /** Every key is listed once, and the listed keys are the object's keys. */
  predicate Valid(a: Acc) {
    (forall i, j :: 0 <= i < j < |a.order| ==> a.order[i] != a.order[j]) &&
    (forall k :: k in a.groups ==> k in a.order) &&
    (forall k :: k in a.order ==> k in a.groups)
  }

  /**
   * The reducer's body: `if (!acc[date]) acc[date] = []; acc[date].push(video)`.
   * A new key goes to the end of the key order with a group of its own;
   * an existing key's group gets the video at its end.
   */
  function Push(a: Acc, key: string, v: Video): (r: Acc)
    requires Valid(a)
    ensures Valid(r)
    ensures key in a.groups ==> r.order == a.order && r.groups == a.groups[key := a.groups[key] + [v]]
    ensures key !in a.groups ==> r.order == a.order + [key] && r.groups == a.groups[key := [v]]
  {
    if key in a.groups then Acc(a.order, a.groups[key := a.groups[key] + [v]])
    else Acc(a.order + [key], a.groups[key := [v]])
  }

  /** `videos.reduce(..., {})`, one video at a time from the front. */
  function Reduce(videos: seq<Video>, day: DayOf): (r: Acc)
    ensures Valid(r)
  {
    if |videos| == 0 then Acc([], map[])
    else
      var last := videos[|videos| - 1];
      Push(Reduce(videos[..|videos| - 1], day), KeyOf(last, day), last)
  }

  /** One day of history. */
  datatype Group = Group(day: string, videos: seq<Video>)

  /** `Object.entries(groupedVideos)`: the groups in key order. */
  function Entries(a: Acc): (r: seq<Group>)
    requires Valid(a)
    ensures |r| == |a.order|
    ensures forall i :: 0 <= i < |r| ==> r[i] == Group(a.order[i], a.groups[a.order[i]])
  {
    seq(|a.order|, i requires 0 <= i < |a.order| => Group(a.order[i], a.groups[a.order[i]]))
  }

  /** The page's grouped history. */
  function GroupByDay(videos: seq<Video>, day: DayOf): seq<Group> {
    Entries(Reduce(videos, day))
  }

  // ---------------------------------------------------------------------
  // Reference definitions
  // ---------------------------------------------------------------------

  /** The day of every video, in order. */
  function Days(videos: seq<Video>, day: DayOf): (r: seq<string>)
    ensures |r| == |videos|
    ensures forall i :: 0 <= i < |videos| ==> r[i] == KeyOf(videos[i], day)
  {
    if |videos| == 0 then [] else [KeyOf(videos[0], day)] + Days(videos[1..], day)
  }

  /** The videos of one day, in their order in the list. */
  function OnDay(videos: seq<Video>, day: DayOf, d: string): seq<Video> {
    if |videos| == 0 then []
    else (if KeyOf(videos[0], day) == d then [videos[0]] else []) + OnDay(videos[1..], day, d)
  }

  /** Where `d` first occurs in `ds`. */
  function FirstIndex(ds: seq<string>, d: string): (r: nat)
    requires d in ds
    ensures r < |ds| && ds[r] == d && d !in ds[..r]
  {
    if ds[0] == d then 0
    else
      var r := FirstIndex(ds[1..], d);
      assert ds[..r + 1] == [ds[0]] + ds[1..][..r];
      r + 1
  }

  /** The total number of videos over the listed keys. */
  function Total(order: seq<string>, groups: map<string, seq<Video>>): nat
    requires forall k :: k in order ==> k in groups
  {
    if |order| == 0 then 0 else |groups[order[0]]| + Total(order[1..], groups)
  }

  // ---------------------------------------------------------------------
  // Properties
  // ---------------------------------------------------------------------

  /** The day list of a longer history extends the shorter one's. */
  lemma {:induction false} DaysPrefix(videos: seq<Video>, day: DayOf)
    requires |videos| > 0
    ensures Days(videos, day) == Days(videos[..|videos| - 1], day) + [KeyOf(videos[|videos| - 1], day)]
  {
    var n := |videos|;
    var last := [KeyOf(videos[n - 1], day)];
    if n == 1 {
      assert videos[..0] == [];
      assert Days(videos, day) == [KeyOf(videos[0], day)] + Days(videos[1..], day);
    } else {
      var tail := videos[1..];
      var prefix := videos[..n - 1];
      assert tail[..|tail| - 1] == prefix[1..];
      assert tail[|tail| - 1] == videos[n - 1];
      DaysPrefix(tail, day);
      calc {
        Days(videos, day);
        [KeyOf(videos[0], day)] + Days(tail, day);
        [KeyOf(videos[0], day)] + (Days(prefix[1..], day) + last);
        ([KeyOf(prefix[0], day)] + Days(prefix[1..], day)) + last;
        Days(prefix, day) + last;
      }
    }
  }

  /** Filtering a list extended at the end. */
  lemma {:induction false} OnDaySnoc(videos: seq<Video>, v: Video, day: DayOf, d: string)
    ensures OnDay(videos + [v], day, d) == OnDay(videos, day, d) + (if KeyOf(v, day) == d then [v] else [])
  {
    if |videos| == 0 {
      assert [v][1..] == [];
    } else {
      var rest := videos[1..];
      var head := if KeyOf(videos[0], day) == d then [videos[0]] else [];
      assert (videos + [v])[0] == videos[0] && (videos + [v])[1..] == rest + [v];
      assert OnDay(videos + [v], day, d) == head + OnDay(rest + [v], day, d);
      assert OnDay(videos, day, d) == head + OnDay(rest, day, d);
      OnDaySnoc(rest, v, day, d);
    }
  }

  /** A history's days are exactly the keys of its grouping. */
  lemma {:induction false} KeysAreDays(videos: seq<Video>, day: DayOf)
    ensures forall d :: d in Reduce(videos, day).groups <==> d in Days(videos, day)
  {
    if |videos| > 0 {
      KeysAreDays(videos[..|videos| - 1], day);
      DaysPrefix(videos, day);
    }
  }

  /**
   * One step of the reduction keeps each group equal to its day's videos:
   * the new video joins its own day's group and no other.
   */
  lemma GroupStep(prefix: seq<Video>, last: Video, day: DayOf, a: Acc, d: string)
    requires Valid(a)
    requires d in a.groups ==> a.groups[d] == OnDay(prefix, day, d)
    requires d !in a.groups ==> d !in Days(prefix, day)
    ensures var b := Push(a, KeyOf(last, day), last);
      d in b.groups ==> b.groups[d] == OnDay(prefix + [last], day, d)
  {
    OnDaySnoc(prefix, last, day, d);
    if d !in a.groups {
      OnDayNone(prefix, day, d);
    }
  }

  /** Each day's group holds exactly that day's videos, in list order. */
  lemma {:induction false} GroupsAreFilters(videos: seq<Video>, day: DayOf)
    ensures forall d :: d in Reduce(videos, day).groups ==> Reduce(videos, day).groups[d] == OnDay(videos, day, d)
  {
    if |videos| > 0 {
      var prefix := videos[..|videos| - 1];
      var last := videos[|videos| - 1];
      var a := Reduce(prefix, day);
      var b := Reduce(videos, day);
      assert b == Push(a, KeyOf(last, day), last);
      assert videos == prefix + [last];
      GroupsAreFilters(prefix, day);
      KeysAreDays(prefix, day);
      forall d | d in b.groups
        ensures b.groups[d] == OnDay(videos, day, d)
      {
        GroupStep(prefix, last, day, a, d);
      }
    }
  }

  /** A day that none of the videos has gets no videos. */
  lemma {:induction false} OnDayNone(videos: seq<Video>, day: DayOf, d: string)
    requires d !in Days(videos, day)
    ensures OnDay(videos, day, d) == []
  {
    if |videos| > 0 {
      assert Days(videos, day)[1..] == Days(videos[1..], day);
      OnDayNone(videos[1..], day, d);
    }
  }

  /** The first occurrence is the one with no occurrence before it. */
  lemma FirstIndexUnique(ds: seq<string>, d: string, r: nat)
    requires r < |ds| && ds[r] == d && d !in ds[..r]
    ensures FirstIndex(ds, d) == r
  {
  }

  /** `FirstIndex` does not move when the list grows at the end. */
  lemma FirstIndexSnoc(ds: seq<string>, x: string, d: string)
    requires d in ds
    ensures FirstIndex(ds + [x], d) == FirstIndex(ds, d)
  {
    var i := FirstIndex(ds, d);
    assert (ds + [x])[..i] == ds[..i];
    FirstIndexUnique(ds + [x], d, i);
  }

  /** A new day, appended at the end, first occurs at the end. */
  lemma FirstIndexNew(ds: seq<string>, x: string)
    requires x !in ds
    ensures FirstIndex(ds + [x], x) == |ds|
  {
    assert (ds + [x])[..|ds|] == ds;
    FirstIndexUnique(ds + [x], x, |ds|);
  }

  /** The keys of `order` are days of `ds`, listed in the order they first occur there. */
  predicate FirstSeenOrder(order: seq<string>, ds: seq<string>) {
    (forall d :: d in order ==> d in ds) &&
    (forall i, j :: 0 <= i < j < |order| ==> FirstIndex(ds, order[i]) < FirstIndex(ds, order[j]))
  }

  /**
   * One step of the reduction keeps the keys in first-occurrence order:
   * an old day keeps its first index, and a new day is appended and
   * first occurs last.
   */
  lemma OrderStep(before: seq<string>, ds: seq<string>, key: string)
    requires FirstSeenOrder(before, ds)
    requires forall d :: d in ds ==> d in before
    ensures FirstSeenOrder(if key in before then before else before + [key], ds + [key])
  {
    var after := if key in before then before else before + [key];
    forall d | d in before
      ensures FirstIndex(ds + [key], d) == FirstIndex(ds, d)
    {
      FirstIndexSnoc(ds, key, d);
    }
    if key !in before {
      FirstIndexNew(ds, key);
      forall i, j | 0 <= i < j < |after|
        ensures FirstIndex(ds + [key], after[i]) < FirstIndex(ds + [key], after[j])
      {
        assert after[i] in before;
        if j < |before| {
          assert after[j] in before;
        }
      }
    }
  }

  /** The keys appear in the order their days first occur in the history. */
  lemma {:induction false} OrderOfFirstOccurrence(videos: seq<Video>, day: DayOf)
    ensures FirstSeenOrder(Reduce(videos, day).order, Days(videos, day))
  {
    if |videos| > 0 {
      var prefix := videos[..|videos| - 1];
      var last := videos[|videos| - 1];
      var a := Reduce(prefix, day);
      var key := KeyOf(last, day);
      assert Reduce(videos, day) == Push(a, key, last);
      OrderOfFirstOccurrence(prefix, day);
      KeysAreDays(prefix, day);
      DaysPrefix(videos, day);
      OrderStep(a.order, Days(prefix, day), key);
    }
  }

  /** Adding a video to a listed key's group adds one to the total. */
  lemma {:induction false} TotalGrow(order: seq<string>, groups: map<string, seq<Video>>, key: string, v: Video)
    requires forall k :: k in order ==> k in groups
    requires forall i, j :: 0 <= i < j < |order| ==> order[i] != order[j]
    requires key in order
    ensures Total(order, groups[key := groups[key] + [v]]) == Total(order, groups) + 1
  {
    if order[0] == key {
      assert key !in order[1..];
      TotalUnchanged(order[1..], groups, key, groups[key] + [v]);
    } else {
      TotalGrow(order[1..], groups, key, v);
    }
  }

  /** Changing a key that is not listed leaves the total alone. */
  lemma {:induction false} TotalUnchanged(order: seq<string>, groups: map<string, seq<Video>>, key: string, vs: seq<Video>)
    requires forall k :: k in order ==> k in groups
    requires key !in order
    ensures Total(order, groups[key := vs]) == Total(order, groups)
  {
    if |order| > 0 {
      TotalUnchanged(order[1..], groups, key, vs);
    }
  }

  /** A total over keys with one more key at the end. */
  lemma {:induction false} TotalSnoc(order: seq<string>, groups: map<string, seq<Video>>, key: string)
    requires forall k :: k in order ==> k in groups
    requires key in groups
    ensures Total(order + [key], groups) == Total(order, groups) + |groups[key]|
  {
    if |order| == 0 {
      assert [key][1..] == [];
    } else {
      assert (order + [key])[1..] == order[1..] + [key];
      TotalSnoc(order[1..], groups, key);
    }
  }

  /** Every video lands in exactly one group: the groups hold as many videos as the history. */
  lemma {:induction false} CountPreserved(videos: seq<Video>, day: DayOf)
    ensures Total(Reduce(videos, day).order, Reduce(videos, day).groups) == |videos|
  {
    if |videos| > 0 {
      var prefix := videos[..|videos| - 1];
      var last := videos[|videos| - 1];
      var a := Reduce(prefix, day);
      var key := KeyOf(last, day);
      CountPreserved(prefix, day);
      if key in a.groups {
        TotalGrow(a.order, a.groups, key, last);
      } else {
        TotalUnchanged(a.order, a.groups, key, [last]);
        TotalSnoc(a.order, a.groups[key := [last]], key);
      }
    }
  }

  /** No day has two groups. */
  lemma GroupDaysDistinct(videos: seq<Video>, day: DayOf)
    ensures forall i, j :: 0 <= i < j < |GroupByDay(videos, day)| ==>
      GroupByDay(videos, day)[i].day != GroupByDay(videos, day)[j].day
  {
  }

  /** Each group holds exactly its day's videos, in the order of the history. */
  lemma GroupsHoldTheirDays(videos: seq<Video>, day: DayOf)
    ensures forall g :: g in GroupByDay(videos, day) ==> g.videos == OnDay(videos, day, g.day)
  {
    GroupsAreFilters(videos, day);
  }

  /** The groups are listed in the order their days first occur in the history. */
  lemma GroupsInFirstSeenOrder(videos: seq<Video>, day: DayOf)
    ensures forall i, j :: 0 <= i < j < |GroupByDay(videos, day)| ==>
      GroupByDay(videos, day)[i].day in Days(videos, day) &&
      GroupByDay(videos, day)[j].day in Days(videos, day) &&
      FirstIndex(Days(videos, day), GroupByDay(videos, day)[i].day) <
      FirstIndex(Days(videos, day), GroupByDay(videos, day)[j].day)
  {
    OrderOfFirstOccurrence(videos, day);
    var order := Reduce(videos, day).order;
    var gs := GroupByDay(videos, day);
    forall i, j | 0 <= i < j < |gs|
      ensures gs[i].day == order[i] && gs[j].day == order[j]
    {
    }
  }

  /** Every video's day has a group. */
  lemma EveryVideoGrouped(videos: seq<Video>, day: DayOf, i: nat)
    requires i < |videos|
    ensures exists g :: g in GroupByDay(videos, day) && g.day == KeyOf(videos[i], day)
  {
    var a := Reduce(videos, day);
    KeysAreDays(videos, day);
    var d := KeyOf(videos[i], day);
    assert Days(videos, day)[i] == d;
    assert d in a.groups;
    assert d in a.order;
    var j :| 0 <= j < |a.order| && a.order[j] == d;
    assert GroupByDay(videos, day)[j] == Group(d, a.groups[d]);
  }

  // ---------------------------------------------------------------------
  // The page
  // ---------------------------------------------------------------------

  /** The history query: all videos, with the `history` flag set. */
  function HistoryQuery(): Api.Endpoint {
    Api.GetVideos(JObj(map["history" := JBool(true)]))
  }

  /** What mounting the page does. */
  datatype Mounted = Mounted(effects: seq<Effect>, calls: seq<Api.Endpoint>)

  /**
   * The guard effect and the query: a guest is sent home with a notice
   * and nothing is fetched; a signed-in viewer's history is fetched.
   */
  function Mount(isAuthenticated: bool): (r: Mounted)
    ensures !isAuthenticated ==> r.effects == [Navigate("/"), ToastError(LoginRequiredText)] && r.calls == []
    ensures isAuthenticated ==> r.effects == [] && r.calls == [HistoryQuery()]
  {
    if isAuthenticated then Mounted([], [HistoryQuery()])
    else Mounted([Navigate("/"), ToastError(LoginRequiredText)], [])
  }

  /** What the page renders. */
  datatype View = Nothing | Skeleton | Grouped(groups: seq<Group>) | EmptyHistory

  /**
   * A guest sees nothing; while loading, placeholders; then the grouped
   * history, or the empty-history notice. A missing response counts as no
   * videos.
   */
  function Render(isAuthenticated: bool, isLoading: bool, data: Option<seq<Video>>, day: DayOf): (r: View)
    ensures !isAuthenticated <==> r.Nothing?
    ensures r.Skeleton? <==> isAuthenticated && isLoading
    ensures r.Grouped? <==> isAuthenticated && !isLoading && data.Some? && |data.value| > 0
    ensures r.Grouped? ==> r.groups == GroupByDay(data.value, day)
    ensures r.EmptyHistory? <==> isAuthenticated && !isLoading && (data.None? || data.value == [])
  {
    var videos := if data.Some? then data.value else [];
    if !isAuthenticated then Nothing
    else if isLoading then Skeleton
    else if |videos| > 0 then Grouped(GroupByDay(videos, day))
    else EmptyHistory
  }
}
