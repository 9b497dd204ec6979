/** The date filter of frontend/src/components/DateNavigator.jsx: the quick
    filters and their day counts, the custom panel with its single date and
    its range (never both set), and what Apply emits. The module also follows
    an emitted selection through getVideosByDate to the window the by_date
    endpoint of backend/api/views.py selects. */
module DateNavigator {
  import opened Outcomes
  import opened ApiClient
  import VideosByDate

  // ---------------------------------------------------------------------------
  // Quick filters

  /** The day count of a quick filter; an unknown filter counts one day. */
  function QuickDays(filter: string): (days: nat)
    ensures filter == "today" ==> days == 1
    ensures filter == "yesterday" ==> days == 2
    ensures filter == "week" ==> days == 7
    ensures filter == "month" ==> days == 30
    ensures filter == "all" ==> days == 365
    ensures filter !in {"today", "yesterday", "week", "month", "all"} ==> days == 1
  {
    match filter
    case "today" => 1
    case "yesterday" => 2
    case "week" => 7
    case "month" => 30
    case "all" => 365
    case _ => 1
  }

  /** What a quick filter emits: {days, filter}. */
  function QuickParams(filter: string): (p: DateParams)
    ensures p == DateParams(None, None, Some(QuickDays(filter)), None, Some(filter))
  {
    DateParams(None, None, Some(QuickDays(filter)), None, Some(filter))
  }

  /** What Apply emits: the single date when one is set, otherwise the range
      when both ends are set, otherwise nothing. */
  function SubmitParams(customDate: string, start: string, end: string): (p: Option<DateParams>)
    ensures customDate != "" ==> p == Some(DateParams(None, None, None, Some(customDate), Some("custom")))
    ensures customDate == "" && start != "" && end != "" ==>
      p == Some(DateParams(Some(start), Some(end), None, None, Some("custom")))
    ensures p.None? <==> customDate == "" && (start == "" || end == "")
  {
    if customDate != "" then Some(DateParams(None, None, None, Some(customDate), Some("custom")))
    else if start != "" && end != "" then Some(DateParams(Some(start), Some(end), None, None, Some("custom")))
    else None
  }

  // ---------------------------------------------------------------------------
  // The component's state

  class Navigator {
    var activeFilter: string
    var showCustom: bool
    var customDate: string
    var rangeStart: string
    var rangeEnd: string

    constructor ()
      ensures activeFilter == "month" && !showCustom
      ensures customDate == "" && rangeStart == "" && rangeEnd == ""
    {
      activeFilter := "month";
      showCustom := false;
      customDate := "";
      rangeStart := "";
      rangeEnd := "";
    }

    /** A single date and a range end are never set together. */
    predicate Exclusive()
      reads this
    {
      customDate == "" || (rangeStart == "" && rangeEnd == "")
    }

    /** Apply is enabled unless there is neither a date nor a complete range. */
    predicate ApplyEnabled()
      reads this
    {
      !(customDate == "" && !(rangeStart != "" && rangeEnd != ""))
    }

    /** handleQuickFilter: the filter becomes active, the custom panel closes,
        and {days, filter} is emitted. */
    method QuickFilter(filter: string) returns (emitted: DateParams)
      modifies this
      ensures activeFilter == filter && !showCustom
      ensures customDate == old(customDate) && rangeStart == old(rangeStart) && rangeEnd == old(rangeEnd)
      ensures emitted == QuickParams(filter)
    {
      activeFilter := filter;
      showCustom := false;
      var days: nat;
      match filter {
        case "today" => days := 1;
        case "yesterday" => days := 2;
        case "week" => days := 7;
        case "month" => days := 30;
        case "all" => days := 365;
        case _ => days := 1;
      }
      emitted := DateParams(None, None, Some(days), None, Some(filter));
    }

    /** handleCustomDate: toggles the panel and marks "custom" active. */
    method ToggleCustom()
      modifies this
      ensures showCustom == !old(showCustom) && activeFilter == "custom"
      ensures customDate == old(customDate) && rangeStart == old(rangeStart) && rangeEnd == old(rangeEnd)
    {
      showCustom := !showCustom;
      activeFilter := "custom";
    }

    /** Choosing a single date clears the range. */
    method SetCustomDate(d: string)
      modifies this
      ensures customDate == d && rangeStart == "" && rangeEnd == ""
      ensures activeFilter == old(activeFilter) && showCustom == old(showCustom)
      ensures Exclusive()
    {
      customDate := d;
      rangeStart, rangeEnd := "", "";
    }

    /** Choosing the start of the range clears the single date. */
    method SetRangeStart(d: string)
      modifies this
      ensures rangeStart == d && rangeEnd == old(rangeEnd) && customDate == ""
      ensures activeFilter == old(activeFilter) && showCustom == old(showCustom)
      ensures Exclusive()
    {
      rangeStart := d;
      customDate := "";
    }

    /** Choosing the end of the range clears the single date. */
    method SetRangeEnd(d: string)
      modifies this
      ensures rangeEnd == d && rangeStart == old(rangeStart) && customDate == ""
      ensures activeFilter == old(activeFilter) && showCustom == old(showCustom)
      ensures Exclusive()
    {
      rangeEnd := d;
      customDate := "";
    }

    /** handleDateSubmit: emits exactly when Apply is enabled. */
    method Submit() returns (emitted: Option<DateParams>)
      ensures emitted == SubmitParams(customDate, rangeStart, rangeEnd)
      ensures emitted.Some? <==> ApplyEnabled()
    {
      if customDate != "" {
        emitted := Some(DateParams(None, None, None, Some(customDate), Some("custom")));
      } else if rangeStart != "" && rangeEnd != "" {
        emitted := Some(DateParams(Some(rangeStart), Some(rangeEnd), None, None, Some("custom")));
      } else {
        emitted := None;
      }
    }
  }

  // ---------------------------------------------------------------------------
  // What by_date receives

  /** How by_date reads the query string: a start and an end date give a
      closed range, a start date alone an open one (the end is then not
      read), and otherwise `days` (30 when missing) is read with int(). None
      is a value the server cannot parse. */
  function ReceivedQuery(pairs: seq<Pair>, parseDate: string -> Option<int>,
                         parseInt: string -> Option<int>): (q: Option<VideosByDate.DateQuery>)
    ensures Lookup(pairs, "start_date") == None && Lookup(pairs, "days") == None ==>
      q == Some(VideosByDate.DateQuery(None, None, None))
  {
    var s := Lookup(pairs, "start_date");
    var e := Lookup(pairs, "end_date");
    var d := Lookup(pairs, "days");
    if TruthyText(s) && TruthyText(e) then
      var a := parseDate(s.value);
      var b := parseDate(e.value);
      if a.Some? && b.Some? then Some(VideosByDate.DateQuery(a, b, None)) else None
    else if TruthyText(s) then
      var a := parseDate(s.value);
      if a.Some? then Some(VideosByDate.DateQuery(a, None, None)) else None
    else if d.None? then Some(VideosByDate.DateQuery(None, None, None))
    else
      var n := parseInt(d.value);
      if n.Some? then Some(VideosByDate.DateQuery(None, None, n)) else None
  }

  /** A quick filter reaches the server as the window of its last days. */
  lemma QuickFilterWindow(filter: string, today: int, parseDate: string -> Option<int>,
                          parseInt: string -> Option<int>)
    requires parseInt(NumberText(QuickDays(filter))) == Some(QuickDays(filter) as int)
    ensures var q := ReceivedQuery(ByDateEntries(QuickParams(filter)), parseDate, parseInt);
      q.Some? && VideosByDate.WindowOf(q.value, today) == VideosByDate.Window(today - QuickDays(filter), None)
  {
    ByDateEntriesRule(QuickParams(filter));
  }

  /** As written, a single date picked in the panel is dropped on the way:
      getVideosByDate sends an empty query string, so the server shows the
      last 30 days whatever date was picked. */
  lemma SingleDateDroppedAsWritten(d: string, today: int, parseDate: string -> Option<int>,
                                   parseInt: string -> Option<int>)
    requires d != ""
    ensures var p := SubmitParams(d, "", "").value;
      && ByDateEntries(p) == []
      && ReceivedQuery(ByDateEntries(p), parseDate, parseInt) == Some(VideosByDate.DateQuery(None, None, None))
      && VideosByDate.WindowOf(VideosByDate.DateQuery(None, None, None), today) == VideosByDate.Window(today - 30, None)
  {
  }

  /** With the date forwarded as a one-day range, the server selects exactly
      the videos of the picked day. */
  lemma SingleDateForwardedRepaired(d: string, day: int, today: int, vs: seq<VideosByDate.VideoRow>,
                                    parseDate: string -> Option<int>, parseInt: string -> Option<int>)
    requires d != "" && parseDate(d) == Some(day)
    ensures var q := ReceivedQuery(ByDateEntriesForwardingDate(SubmitParams(d, "", "").value), parseDate, parseInt);
      && q == Some(VideosByDate.DateQuery(Some(day), Some(day), None))
      && forall v :: v in VideosByDate.Selected(vs, VideosByDate.WindowOf(q.value, today)) <==>
           v in vs && VideosByDate.Day(v) == day
  {
    var p := SubmitParams(d, "", "").value;
    ForwardedDateIsRange(p);
    VideosByDate.WindowRule(vs, VideosByDate.DateQuery(Some(day), Some(day), None), today);
  }
}
