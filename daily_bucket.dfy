/** One day of the history page, frontend/src/components/DailyBucket.jsx: its
    count label, each card's status badge, duration text and actions, and the
    delete handler that forwards to the page's handler when one is given. */
module DailyBucket {
  import opened Outcomes
  import opened Text
  import opened Numeric
  import opened BadgeVariants
  import Dashboard
  import ChatPage

  /** The component's own `variants[status] || 'info'`. */
  function StatusVariant(status: string): (v: Variant)
    ensures status == "completed" ==> v == Success
    ensures status == "processing" ==> v == Warning
    ensures status == "failed" ==> v == Error
    ensures status !in {"completed", "processing", "failed"} ==> v == Info
  {
    if status == "completed" then Success
    else if status == "processing" then Warning
    else if status == "failed" then Error
    else if status == "uploading" then Info
    else Info
  }

  /** The day view and the dashboard badge every status alike. */
  lemma SameVariantsAsDashboard(status: string)
    ensures StatusVariant(status) == Dashboard.StatusVariant(status)
  {
  }

  // ---------------------------------------------------------------------------
  // The count label

  /** `video{count !== 1 ? 's' : ''}`. */
  function VideoNoun(count: int): (noun: string)
    ensures noun == "video" || noun == "videos"
  {
    "video" + (if count != 1 then "s" else "")
  }

  /** The noun is singular for a count of exactly one and for no other. */
  lemma NounSingularIffOne(count: int)
    ensures VideoNoun(count) == "video" <==> count == 1
  {
    if count != 1 {
      assert |VideoNoun(count)| == 6;
    }
  }

  /** The badge of the bucket header: the count, a space and the noun. */
  function CountLabel(count: int): (shown: string)
    ensures StartsWith(shown, IntToString(count) + " video")
    ensures EndsWith(shown, "s") <==> count != 1
  {
    var pre := IntToString(count) + " video";
    var shown := pre + (if count != 1 then "s" else "");
    assert shown[..|pre|] == pre;
    assert shown[|shown| - 1] == if count != 1 then 's' else 'o';
    shown
  }

  // ---------------------------------------------------------------------------
  // The actions of a card

  predicate ShowsChatAndPdf(v: Dashboard.VideoCard) {
    v.status == "completed"
  }

  predicate ShowsDelete(v: Dashboard.VideoCard) {
    v.status == "failed" || v.status == "completed"
  }

  /** Every card that offers the conversation also offers deletion, and the
      day view offers deletion for exactly the cards where the dashboard
      offers it plus the completed ones. */
  lemma DeleteOfferedWider(v: Dashboard.VideoCard)
    ensures ShowsChatAndPdf(v) ==> ShowsDelete(v)
    ensures ShowsChatAndPdf(v) <==> Dashboard.ShowsChatAndPdf(v)
    ensures ShowsDelete(v) <==> Dashboard.ShowsDelete(v) || Dashboard.ShowsChatAndPdf(v)
  {
  }

  /** handleDelete: the page's handler is called with the card's id and title
      exactly when the page passed one. */
  function DeleteCall(handlerGiven: bool, videoId: int, title: string): (call: Option<(int, string)>)
    ensures call.Some? <==> handlerGiven
    ensures call.Some? ==> call.value == (videoId, title)
  {
    if handlerGiven then Some((videoId, title)) else None
  }

  // ---------------------------------------------------------------------------
  // The duration

  /** `${Math.floor(d / 60)}m ${Math.floor(d % 60)}s`. */
  function MinutesText(d: real): string {
    IntToString((d / 60.0).Floor) + "m " + IntToString(JsRemainder(d, 60.0).Floor) + "s"
  }

  /** `{video.duration_seconds && <span>...</span>}` as React renders it: a
      missing duration renders nothing, but a duration of 0 is the value of
      the expression and renders as the text "0". */
  function DurationAsWritten(d: Option<real>): (shown: string)
    ensures d.None? ==> shown == ""
    ensures d.Some? && d.value == 0.0 ==> shown == "0"
    ensures d.Some? && d.value != 0.0 ==> shown == MinutesText(d.value)
  {
    match d
    case None => ""
    case Some(x) => if x == 0.0 then "0" else MinutesText(x)
  }

  /** A video of zero seconds shows a stray "0" beside its badge. */
  lemma ZeroDurationShowsZero()
    ensures DurationAsWritten(Some(0.0)) == "0"
    ensures DurationText(Some(0.0)) == ""
  {
  }

  /** The duration shown only when it is truthy, as intended. */
  function DurationText(d: Option<real>): (shown: string)
    ensures d.None? || d.value == 0.0 ==> shown == ""
    ensures d.Some? && d.value != 0.0 ==> shown == MinutesText(d.value)
  {
    if d.Some? && d.value != 0.0 then MinutesText(d.value) else ""
  }

  /** Nothing is shown exactly for a missing or zero duration, and a positive
      duration of n whole seconds reads as n/60 minutes and n%60 seconds, the
      seconds always below 60. */
  lemma DurationReadsMinutesSeconds(d: Option<real>)
    ensures DurationText(d) == "" <==> d.None? || d.value == 0.0
    ensures d.Some? && d.value > 0.0 ==>
      var n := d.value.Floor;
      n >= 0 && DurationText(d) == NatToString(n / 60) + "m " + NatToString(n % 60) + "s" && n % 60 < 60
  {
    if d.Some? && d.value != 0.0 {
      assert DurationText(d)[|DurationText(d)| - 1] == 's';
    }
    if d.Some? && d.value > 0.0 {
      var x := d.value;
      var n := x.Floor;
      var t := (x / 60.0).Floor;
      assert x / 60.0 >= 0.0;
      var r := JsRemainder(x, 60.0);
      assert r == x - 60.0 * (t as real);
      ChatPage.MinutesAndSeconds(x, n, t);
      ChatPage.WholeSecondsSplit(n, t, n - 60 * t);
    }
  }
}
