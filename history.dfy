/** The history page of frontend/src/pages/History.jsx: the day list it loads
    for the current filter, the total it shows with its summary line, and the
    reloads after a date change, a refresh and a confirmed delete. The
    request outcomes are inputs; each load is one call. */
module History {
  import opened Outcomes
  import opened Text
  import ApiClient
  import DateNavigator
  import VideosByDate
  import DailyBucket

  type Day = VideosByDate.Bucket

  // ---------------------------------------------------------------------------
  // totalVideos

  /** `days.reduce((sum, day) => sum + day.count, acc)`. */
  function Reduce(acc: int, days: seq<Day>): int
    decreases |days|
  {
    if days == [] then acc else Reduce(acc + days[0].count, days[1..])
  }

  /** The total shown: the sum of the days' counts. */
  function TotalVideos(days: seq<Day>): (total: int)
    ensures total == VideosByDate.TotalCount(days)
  {
    ReduceAddsCounts(0, days);
    Reduce(0, days)
  }

  /** The counts summed from the front, as the reduce goes, equal the
      counts summed from the back. */
  lemma {:induction false} TotalCountFront(days: seq<Day>)
    requires days != []
    ensures VideosByDate.TotalCount(days) == days[0].count + VideosByDate.TotalCount(days[1..])
    decreases |days|
  {
    if |days| == 1 {
      assert days[..0] == [];
      assert days[1..] == [];
    } else {
      var init := days[..|days| - 1];
      TotalCountFront(init);
      assert init[0] == days[0];
      assert init[1..] == days[1..][..|days| - 2];
      assert days[1..][|days| - 2] == days[|days| - 1];
    }
  }

  lemma {:induction false} ReduceAddsCounts(acc: int, days: seq<Day>)
    ensures Reduce(acc, days) == acc + VideosByDate.TotalCount(days)
    decreases |days|
  {
    if days != [] {
      ReduceAddsCounts(acc + days[0].count, days[1..]);
      TotalCountFront(days);
    }
  }

  /** When the days are the by_date grouping of a list of videos, the page
      shows exactly the number of videos in the list. */
  lemma TotalIsVideoCount(vs: seq<VideosByDate.VideoRow>, today: int)
    ensures TotalVideos(VideosByDate.Buckets(vs, today)) == |vs|
  {
    VideosByDate.CountsAddUp(vs, today);
  }

  // ---------------------------------------------------------------------------
  // The summary line

  /** `s.replace('_', ' ')` with a string pattern: the first '_' only. */
  function ReplaceFirst(s: string, c: char, d: char): (r: string)
    ensures |r| == |s|
    ensures c !in s ==> r == s
  {
    if c !in s then s else s[..IndexOf(s, c)] + [d] + s[IndexOf(s, c) + 1..]
  }

  /** The replacement rewrites the first occurrence and keeps every other
      character, later occurrences included. */
  lemma ReplaceFirstOnlyFirst(s: string, c: char, d: char)
    requires c in s
    ensures var i := IndexOf(s, c);
      && ReplaceFirst(s, c, d)[i] == d
      && ReplaceFirst(s, c, d)[..i] == s[..i]
      && ReplaceFirst(s, c, d)[i + 1..] == s[i + 1..]
  {
  }

  /** "Showing N video(s)", followed by " from <filter>" when the filter is
      truthy. */
  function SummaryText(total: int, filter: Option<string>): (shown: string)
    ensures StartsWith(shown, "Showing " + IntToString(total) + " " + DailyBucket.VideoNoun(total))
    ensures !ApiClient.TruthyText(filter) ==> shown == "Showing " + IntToString(total) + " " + DailyBucket.VideoNoun(total)
  {
    var head := "Showing " + IntToString(total) + " " + DailyBucket.VideoNoun(total);
    var shown := head + (if ApiClient.TruthyText(filter) then " from " + ReplaceFirst(filter.value, '_', ' ') else "");
    assert shown[..|head|] == head;
    shown
  }

  /** No filter the date navigator emits contains '_', so the summary names
      it as it is. */
  lemma NavigatorFiltersShownVerbatim(filter: string)
    requires filter in {"today", "yesterday", "week", "month", "all", "custom"}
    ensures DateNavigator.QuickParams(filter).filter == Some(filter)
    ensures ReplaceFirst(filter, '_', ' ') == filter
  {
    assert '_' !in filter by {
      if filter == "today" {
      } else if filter == "yesterday" {
      } else if filter == "week" {
      } else if filter == "month" {
      } else if filter == "all" {
      } else {
        assert filter == "custom";
      }
    }
  }

  // ---------------------------------------------------------------------------
  // The page's state

  /** How a by_date request ends: its data field (None when falsy), or a
      failure. */
  datatype LoadOutcome = Received(data: Option<seq<Day>>) | LoadFailed

  /** `response.data || []`, and [] after a failure. */
  function Loaded(o: LoadOutcome): (days: seq<Day>)
    ensures o.Received? && o.data.Some? ==> days == o.data.value
    ensures o.Received? && o.data.None? ==> days == []
    ensures o.LoadFailed? ==> days == []
  {
    match o
    case Received(d) => d.GetOr([])
    case LoadFailed => []
  }

  const InitialFilter: ApiClient.DateParams := ApiClient.DateParams(None, None, Some(30), None, Some("month"))

  const DeleteFailedAlert: string := "Failed to delete video. Please try again."

  class HistoryPage {
    var dailyData: seq<Day>
    var loading: bool
    var currentFilter: ApiClient.DateParams
    var refreshing: bool

    constructor ()
      ensures dailyData == [] && loading && currentFilter == InitialFilter && !refreshing
    {
      dailyData := [];
      loading := true;
      currentFilter := InitialFilter;
      refreshing := false;
    }

    /** loadData: the request for the params goes out, the list becomes the
        response's data or empty, and loading ends either way. */
    method Load(params: ApiClient.DateParams, o: LoadOutcome) returns (path: string)
      modifies this
      ensures path == ApiClient.ByDatePath(params)
      ensures dailyData == Loaded(o) && !loading
      ensures currentFilter == old(currentFilter) && refreshing == old(refreshing)
    {
      loading := true;
      path := ApiClient.ByDatePath(params);
      match o {
        case Received(d) =>
          dailyData := d.GetOr([]);
        case LoadFailed =>
          dailyData := [];
      }
      loading := false;
    }

    /** handleDateChange: the selection becomes the current filter and is
        loaded. */
    method DateChange(params: ApiClient.DateParams, o: LoadOutcome) returns (path: string)
      modifies this
      ensures currentFilter == params && path == ApiClient.ByDatePath(params)
      ensures dailyData == Loaded(o) && !loading && refreshing == old(refreshing)
    {
      currentFilter := params;
      path := Load(params, o);
    }

    /** handleRefresh: the current filter is loaded again and the refresh
        indicator ends off. */
    method Refresh(o: LoadOutcome) returns (path: string)
      modifies this
      ensures path == ApiClient.ByDatePath(old(currentFilter)) && currentFilter == old(currentFilter)
      ensures dailyData == Loaded(o) && !loading && !refreshing
    {
      refreshing := true;
      path := Load(currentFilter, o);
      refreshing := false;
    }

    /** handleDelete: a declined confirmation does nothing; a failed delete
        alerts and leaves the list; a successful one reloads the current
        filter. */
    method Delete(videoId: int, confirmed: bool, deleted: bool, o: LoadOutcome)
        returns (deleteRequest: Option<int>, reload: Option<string>, alert: Option<string>)
      modifies this
      ensures deleteRequest.Some? <==> confirmed
      ensures deleteRequest.Some? ==> deleteRequest.value == videoId
      ensures reload.Some? <==> confirmed && deleted
      ensures reload.Some? ==> reload.value == ApiClient.ByDatePath(old(currentFilter)) && dailyData == Loaded(o) && !loading
      ensures reload.None? ==> dailyData == old(dailyData) && loading == old(loading)
      ensures alert.Some? <==> confirmed && !deleted
      ensures alert.Some? ==> alert.value == DeleteFailedAlert
      ensures currentFilter == old(currentFilter) && refreshing == old(refreshing)
    {
      if !confirmed {
        return None, None, None;
      }
      deleteRequest := Some(videoId);
      if !deleted {
        return deleteRequest, None, Some(DeleteFailedAlert);
      }
      var path := Load(currentFilter, o);
      reload := Some(path);
      alert := None;
    }

    /** The summary line of the current state. */
    function Summary(): string
      reads this
    {
      SummaryText(TotalVideos(dailyData), currentFilter.filter)
    }
  }

  /** Opening the page: the first load is for the last 30 days, and after it
      the summary counts what arrived. */
  method Open(o: LoadOutcome) returns (page: HistoryPage, path: string)
    ensures fresh(page)
    ensures path == ApiClient.ByDatePath(InitialFilter)
    ensures page.dailyData == Loaded(o) && !page.loading && page.currentFilter == InitialFilter
  {
    page := new HistoryPage();
    path := page.Load(page.currentFilter, o);
  }

  /** A failed load leaves an empty list, so the summary shows 0 videos. */
  lemma FailedLoadShowsNone(filter: Option<string>)
    ensures TotalVideos(Loaded(LoadFailed)) == 0
    ensures StartsWith(SummaryText(TotalVideos(Loaded(LoadFailed)), filter), "Showing 0 videos")
  {
    var shown := SummaryText(0, filter);
    assert IntToString(0) == "0";
    assert "Showing " + IntToString(0) + " " + DailyBucket.VideoNoun(0) == "Showing 0 videos";
  }
}
