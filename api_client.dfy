/** The request builders of frontend/src/services/api.js that carry logic:
    the query string of getVideosByDate, the form of uploadVideo, the default
    of getDailyStats, and the set of members the videoAPI object defines.
    Paths are relative to the base URL http://localhost:8000/api. */
module ApiClient {
  import opened Outcomes
  import opened Text

  // ---------------------------------------------------------------------------
  // Truthiness of the values pages pass

  /** A string value is truthy when present and non-empty. */
  predicate TruthyText(s: Option<string>) {
    s.Some? && s.value != ""
  }

  /** A number value is truthy when present and not 0. */
  predicate TruthyNumber(n: Option<int>) {
    n.Some? && n.value != 0
  }

  /** JavaScript's String(n) of an integral number. */
  function NumberText(n: int): string {
    IntToString(n)
  }

  // ---------------------------------------------------------------------------
  // getVideosByDate

  /** The params object a page hands to getVideosByDate; a missing key is None. */
  datatype DateParams = DateParams(
    startDate: Option<string>,
    endDate: Option<string>,
    days: Option<int>,
    date: Option<string>,
    filter: Option<string>)

  type Pair = (string, string)

  const ByDateKeys: seq<string> := ["start_date", "end_date", "days"]

  /** The entries appended to the URLSearchParams, in order. */
  method ByDatePairs(p: DateParams) returns (pairs: seq<Pair>)
    ensures pairs == ByDateEntries(p)
  {
    pairs := [];
    if TruthyText(p.startDate) {
      pairs := pairs + [("start_date", p.startDate.value)];
    }
    if TruthyText(p.endDate) {
      pairs := pairs + [("end_date", p.endDate.value)];
    }
    if TruthyNumber(p.days) {
      pairs := pairs + [("days", NumberText(p.days.value))];
    }
  }

  /** The entries of the query string getVideosByDate sends. */
  function ByDateEntries(p: DateParams): (pairs: seq<Pair>)
    ensures |pairs| <= 3
  {
    (if TruthyText(p.startDate) then [("start_date", p.startDate.value)] else [])
    + (if TruthyText(p.endDate) then [("end_date", p.endDate.value)] else [])
    + (if TruthyNumber(p.days) then [("days", NumberText(p.days.value))] else [])
  }

  /** The value of the first entry with key k, or None (URLSearchParams.get). */
  function Lookup(pairs: seq<Pair>, k: string): (v: Option<string>)
    ensures v.Some? ==> (k, v.value) in pairs
    ensures v.None? ==> forall i :: 0 <= i < |pairs| ==> pairs[i].0 != k
  {
    if pairs == [] then None
    else if pairs[0].0 == k then Some(pairs[0].1)
    else Lookup(pairs[1..], k)
  }

  /** Each of start_date, end_date and days is sent exactly when it is truthy,
      with its own value, in that order; date and filter are never sent. */
  lemma ByDateEntriesRule(p: DateParams)
    ensures Lookup(ByDateEntries(p), "start_date") == (if TruthyText(p.startDate) then p.startDate else None)
    ensures Lookup(ByDateEntries(p), "end_date") == (if TruthyText(p.endDate) then p.endDate else None)
    ensures Lookup(ByDateEntries(p), "days") ==
      (if TruthyNumber(p.days) then Some(NumberText(p.days.value)) else None)
    ensures Lookup(ByDateEntries(p), "date").None? && Lookup(ByDateEntries(p), "filter").None?
    ensures forall i, j :: 0 <= i < j < |ByDateEntries(p)| ==>
      KeyRank(ByDateEntries(p)[i].0) < KeyRank(ByDateEntries(p)[j].0)
  {
    EntriesLookup(p, "start_date");
    EntriesLookup(p, "end_date");
    EntriesLookup(p, "days");
    EntriesLookup(p, "date");
    EntriesLookup(p, "filter");
    EntriesRanked(p);
  }

  /** A key is looked up in the start_date entry, then the end_date entry,
      then the days entry. */
  lemma EntriesLookup(p: DateParams, k: string)
    ensures var first := if TruthyText(p.startDate) then [("start_date", p.startDate.value)] else [];
      var second := if TruthyText(p.endDate) then [("end_date", p.endDate.value)] else [];
      var third := if TruthyNumber(p.days) then [("days", NumberText(p.days.value))] else [];
      Lookup(ByDateEntries(p), k) ==
        if Lookup(first, k).Some? then Lookup(first, k)
        else if Lookup(second, k).Some? then Lookup(second, k)
        else Lookup(third, k)
  {
    var first := if TruthyText(p.startDate) then [("start_date", p.startDate.value)] else [];
    var second := if TruthyText(p.endDate) then [("end_date", p.endDate.value)] else [];
    var third := if TruthyNumber(p.days) then [("days", NumberText(p.days.value))] else [];
    LookupConcat(first + second, third, k);
    LookupConcat(first, second, k);
  }

  lemma EntriesRanked(p: DateParams)
    ensures forall i, j :: 0 <= i < j < |ByDateEntries(p)| ==>
      KeyRank(ByDateEntries(p)[i].0) < KeyRank(ByDateEntries(p)[j].0)
  {
  }

  /** A key is looked up in the first part of a concatenation, then in the second. */
  lemma {:induction false} LookupConcat(a: seq<Pair>, b: seq<Pair>, k: string)
    ensures Lookup(a + b, k) == if Lookup(a, k).Some? then Lookup(a, k) else Lookup(b, k)
    decreases |a|
  {
    if a == [] {
      assert a + b == b;
    } else {
      assert (a + b)[0] == a[0] && (a + b)[1..] == a[1..] + b;
      LookupConcat(a[1..], b, k);
    }
  }

  /** The position of a query key among start_date, end_date, days. */
  function KeyRank(k: string): nat {
    if k == "start_date" then 0 else if k == "end_date" then 1 else 2
  }

  /** `URLSearchParams.toString()` for values that need no escaping (dates
      and numerals): key=value entries joined by '&'. */
  function QueryString(pairs: seq<Pair>): string {
    if pairs == [] then ""
    else if |pairs| == 1 then pairs[0].0 + "=" + pairs[0].1
    else pairs[0].0 + "=" + pairs[0].1 + "&" + QueryString(pairs[1..])
  }

  function ByDatePath(p: DateParams): string {
    "/videos/by_date/?" + QueryString(ByDateEntries(p))
  }

  /** The repaired builder: a single date is sent as a one-day range
      (start_date = end_date = date) when no start date is given. */
  function ByDateEntriesForwardingDate(p: DateParams): (pairs: seq<Pair>)
    ensures !TruthyText(p.date) || TruthyText(p.startDate) ==> pairs == ByDateEntries(p)
  {
    if TruthyText(p.date) && !TruthyText(p.startDate) then
      [("start_date", p.date.value), ("end_date", p.date.value)]
      + (if TruthyNumber(p.days) then [("days", NumberText(p.days.value))] else [])
    else ByDateEntries(p)
  }

  /** With the repaired builder a single date reaches the server as both
      ends of the range. */
  lemma ForwardedDateIsRange(p: DateParams)
    requires TruthyText(p.date) && !TruthyText(p.startDate)
    ensures Lookup(ByDateEntriesForwardingDate(p), "start_date") == p.date
    ensures Lookup(ByDateEntriesForwardingDate(p), "end_date") == p.date
  {
  }

  // ---------------------------------------------------------------------------
  // getDailyStats, uploadVideo

  /** The days parameter defaults to 30 when the caller gives none. */
  function DailyStatsPath(days: Option<int>): (path: string)
    ensures days.None? ==> path == "/videos/daily_stats/?days=30"
    ensures days.Some? ==> path == "/videos/daily_stats/?days=" + NumberText(days.value)
  {
    "/videos/daily_stats/?days=" + NumberText(days.GetOr(30))
  }

  /** A multipart form field: the file itself or a text value. */
  datatype FormValue = FilePart(fileName: string) | TextPart(text: string)

  /** The two fields uploadVideo sends: the file, then its name as the title. */
  function UploadForm(fileName: string): (form: seq<(string, FormValue)>)
    ensures |form| == 2
    ensures form[0] == ("file", FilePart(fileName))
    ensures form[1] == ("title", TextPart(fileName))
  {
    [("file", FilePart(fileName)), ("title", TextPart(fileName))]
  }

  // ---------------------------------------------------------------------------
  // The members of videoAPI

  /** The names the videoAPI object has. */
  const VideoApiMembers: set<string> :=
    {"getVideos", "getVideo", "uploadVideo", "getVideoStatus", "queryVideo", "getPDF",
     "deleteVideo", "getVideosByDate", "getDailyStats", "getVideosForDate"}

  /** The repaired object, which also has aiChat: POST /videos/<id>/ai_chat/
      with the message and the history, the route of the backend's ai_chat
      action. */
  const RepairedVideoApiMembers: set<string> := VideoApiMembers + {"aiChat"}

  function AiChatPath(videoId: string): string {
    "/videos/" + videoId + "/ai_chat/"
  }

  function QueryPath(videoId: string): string {
    "/videos/" + videoId + "/query/"
  }
}
