/** The by_date endpoint of backend/api/views.py: the upload-date window
    chosen from the query parameters, and the grouping of the window's videos
    into one bucket per upload date, in the order the dates first occur in
    the newest-first listing. Dates are day numbers (days since the epoch,
    UTC); a timestamp is in seconds. */
module VideosByDate {
  import opened Outcomes

  datatype VideoRow = VideoRow(id: int, uploaded: int)

  const SecondsPerDay: int := 86400

  /** `upload_date.date()`: the day a timestamp falls on. */
  function Day(v: VideoRow): int {
    v.uploaded / SecondsPerDay
  }

  lemma DayMonotone(a: VideoRow, b: VideoRow)
    requires a.uploaded >= b.uploaded
    ensures Day(a) >= Day(b)
  {
  }

  // ---------------------------------------------------------------------------
  // The window

  /** The query parameters start_date, end_date and days, already parsed:
      days is None when missing; start and end are None when missing or
      empty. An empty days makes `int('')` raise, which is not modelled here. */
  datatype DateQuery = DateQuery(startDate: Option<int>, endDate: Option<int>, days: Option<int>)

  /** The window: [start, end] when both are given, [start, ...) when only the
      start is, and otherwise the last `days` days (30 by default). An end
      date without a start date is ignored. */
  datatype Window = Window(from: int, until: Option<int>)

  function WindowOf(q: DateQuery, today: int): (w: Window)
    ensures q.startDate.Some? ==> w.from == q.startDate.value && w.until == q.endDate
    ensures q.startDate.None? ==> w == Window(today - q.days.GetOr(30), None)
  {
    if q.startDate.Some? && q.endDate.Some? then Window(q.startDate.value, q.endDate)
    else if q.startDate.Some? then Window(q.startDate.value, None)
    else Window(today - q.days.GetOr(30), None)
  }

  predicate InWindow(v: VideoRow, w: Window) {
    Day(v) >= w.from && (w.until.Some? ==> Day(v) <= w.until.value)
  }

  /** The window's videos, in listing order. */
  function Selected(vs: seq<VideoRow>, w: Window): (r: seq<VideoRow>)
    ensures forall v :: v in r <==> v in vs && InWindow(v, w)
    ensures |r| <= |vs|
  {
    if vs == [] then []
    else Selected(vs[..|vs| - 1], w) + (if InWindow(vs[|vs| - 1], w) then [vs[|vs| - 1]] else [])
  }

  // ---------------------------------------------------------------------------
  // Grouping

  /** The days of the videos, each once, in order of first occurrence (the
      insertion order of the videos_by_date dict). */
  function DistinctDays(vs: seq<VideoRow>): (keys: seq<int>)
    ensures forall i, j :: 0 <= i < j < |keys| ==> keys[i] != keys[j]
  {
    if vs == [] then []
    else
      var keys := DistinctDays(vs[..|vs| - 1]);
      var last := vs[|vs| - 1];
      if Day(last) in keys then keys else keys + [Day(last)]
  }

  /** The keys are exactly the days some video was uploaded on. */
  lemma {:induction false} DistinctDaysMembers(vs: seq<VideoRow>)
    ensures forall d :: d in DistinctDays(vs) <==> exists v :: v in vs && Day(v) == d
    decreases |vs|
  {
    if vs != [] {
      var p := vs[..|vs| - 1];
      DistinctDaysMembers(p);
      assert vs == p + [vs[|vs| - 1]];
      assert forall v :: v in vs <==> v in p || v == vs[|vs| - 1];
    }
  }

  /** The videos uploaded on day d, in listing order. */
  function OnDay(vs: seq<VideoRow>, d: int): (r: seq<VideoRow>)
    ensures forall k :: 0 <= k < |r| ==> Day(r[k]) == d
    ensures |r| <= |vs|
  {
    if vs == [] then []
    else OnDay(vs[..|vs| - 1], d) + (if Day(vs[|vs| - 1]) == d then [vs[|vs| - 1]] else [])
  }

  /** The list of a day holds exactly the videos uploaded on it. */
  lemma {:induction false} OnDayMembers(vs: seq<VideoRow>, d: int)
    ensures forall v :: v in OnDay(vs, d) <==> v in vs && Day(v) == d
    decreases |vs|
  {
    if vs != [] {
      var p := vs[..|vs| - 1];
      OnDayMembers(p, d);
      assert vs == p + [vs[|vs| - 1]];
      assert forall v :: v in vs <==> v in p || v == vs[|vs| - 1];
    }
  }

  datatype DisplayDate = Today | Yesterday | Formatted(day: int)

  /** "Today", "Yesterday", or the date written out. */
  function Label(d: int, today: int): (l: DisplayDate)
    ensures l == Today <==> d == today
    ensures l == Yesterday <==> d == today - 1
    ensures l.Formatted? ==> l.day == d
  {
    if d == today then Today else if d == today - 1 then Yesterday else Formatted(d)
  }

  datatype Bucket = Bucket(date: int, display: DisplayDate, count: nat, videos: seq<VideoRow>)

  function MakeBucket(vs: seq<VideoRow>, d: int, today: int): Bucket {
    Bucket(d, Label(d, today), |OnDay(vs, d)|, OnDay(vs, d))
  }

  /** One bucket per key, in key order. */
  function BucketsFor(keys: seq<int>, vs: seq<VideoRow>, today: int): (bs: seq<Bucket>)
    ensures |bs| == |keys|
    ensures forall i :: 0 <= i < |keys| ==> bs[i] == MakeBucket(vs, keys[i], today)
  {
    if keys == [] then []
    else BucketsFor(keys[..|keys| - 1], vs, today) + [MakeBucket(vs, keys[|keys| - 1], today)]
  }

  /** The response of by_date for the window's videos. */
  function Buckets(vs: seq<VideoRow>, today: int): seq<Bucket> {
    BucketsFor(DistinctDays(vs), vs, today)
  }

  /** The sum of the buckets' counts. */
  function TotalCount(bs: seq<Bucket>): nat {
    if bs == [] then 0 else TotalCount(bs[..|bs| - 1]) + bs[|bs| - 1].count
  }

  // ---------------------------------------------------------------------------
  // The endpoint

  /** by_date. `listing` is Video.objects.all() in upload_date descending
      order; the window filter keeps that order. */
  method ByDate(listing: seq<VideoRow>, q: DateQuery, today: int) returns (result: seq<Bucket>)
    ensures result == Buckets(Selected(listing, WindowOf(q, today)), today)
  {
    var w := WindowOf(q, today);
    result := GroupByDate(Selected(listing, w), today);
  }

  /** The two loops of by_date: grouping into the dict, then one response
      entry per dict item. */
  method GroupByDate(vs: seq<VideoRow>, today: int) returns (result: seq<Bucket>)
    ensures result == Buckets(vs, today)
  {
    var keys, groups := CollectGroups(vs);
    result := EmitBuckets(keys, groups, vs, today);
  }

  /** The first loop: videos_by_date, as its keys in insertion order and the
      dict itself. */
  method CollectGroups(vs: seq<VideoRow>) returns (keys: seq<int>, groups: map<int, seq<VideoRow>>)
    ensures keys == DistinctDays(vs)
    ensures forall e :: e in groups <==> e in keys
    ensures forall e :: e in groups ==> groups[e] == OnDay(vs, e)
  {
    keys, groups := [], map[];
    var i := 0;
    while i < |vs|
      invariant 0 <= i <= |vs|
      invariant keys == DistinctDays(vs[..i])
      invariant forall e :: e in groups <==> e in keys
      invariant forall e :: e in groups ==> groups[e] == OnDay(vs[..i], e)
    {
      var v := vs[i];
      var d := Day(v);
      CollectStep(vs, i);
      if d !in groups {
        OnDayEmpty(vs[..i], d);
        groups := groups[d := []];
        keys := keys + [d];
      }
      ghost var before := groups;
      groups := groups[d := groups[d] + [v]];
      forall e | e in groups ensures groups[e] == OnDay(vs[..i + 1], e) {
        if e != d { assert groups[e] == before[e]; }
      }
      i := i + 1;
    }
    assert vs[..i] == vs;
  }

  /** One more video of the listing: its day joins the keys when new, and
      it joins the list of its day. */
  lemma CollectStep(vs: seq<VideoRow>, i: nat)
    requires i < |vs|
    ensures DistinctDays(vs[..i + 1]) ==
      if Day(vs[i]) in DistinctDays(vs[..i]) then DistinctDays(vs[..i]) else DistinctDays(vs[..i]) + [Day(vs[i])]
    ensures forall e :: OnDay(vs[..i + 1], e) == OnDay(vs[..i], e) + (if Day(vs[i]) == e then [vs[i]] else [])
  {
    assert vs[..i + 1][..i] == vs[..i];
    assert vs[..i + 1][i] == vs[i];
  }

  /** The second loop: one response entry per dict item, in dict order. */
  method EmitBuckets(keys: seq<int>, groups: map<int, seq<VideoRow>>, ghost vs: seq<VideoRow>, today: int)
    returns (result: seq<Bucket>)
    requires forall e :: e in keys ==> e in groups && groups[e] == OnDay(vs, e)
    ensures result == BucketsFor(keys, vs, today)
  {
    result := [];
    var j := 0;
    while j < |keys|
      invariant 0 <= j <= |keys|
      invariant result == BucketsFor(keys[..j], vs, today)
    {
      var d := keys[j];
      assert keys[..j + 1][..j] == keys[..j];
      result := result + [Bucket(d, Label(d, today), |groups[d]|, groups[d])];
      j := j + 1;
    }
    assert keys[..j] == keys;
  }

  /** No video of day d: no bucket content for d. */
  lemma {:induction false} OnDayEmpty(vs: seq<VideoRow>, d: int)
    requires d !in DistinctDays(vs)
    ensures OnDay(vs, d) == []
    decreases |vs|
  {
    if vs != [] {
      var p := vs[..|vs| - 1];
      assert Day(vs[|vs| - 1]) != d && d !in DistinctDays(p);
      OnDayEmpty(p, d);
    }
  }

  // ---------------------------------------------------------------------------
  // Properties of the grouping

  /** Every video of the window lands in exactly one bucket, the one of its
      upload date, and each bucket's count is the length of its list. */
  lemma EachVideoInOneBucket(vs: seq<VideoRow>, today: int)
    ensures var bs := Buckets(vs, today);
      && (forall i :: 0 <= i < |bs| ==> bs[i].count == |bs[i].videos|)
      && (forall i, v :: 0 <= i < |bs| && v in bs[i].videos ==> v in vs && Day(v) == bs[i].date)
      && (forall v :: v in vs ==> exists i :: 0 <= i < |bs| && v in bs[i].videos)
      && (forall i, j, v :: 0 <= i < |bs| && 0 <= j < |bs| && v in bs[i].videos && v in bs[j].videos ==> i == j)
  {
    var keys := DistinctDays(vs);
    var bs := Buckets(vs, today);
    DistinctDaysMembers(vs);
    forall i | 0 <= i < |keys| ensures forall v :: v in bs[i].videos <==> v in vs && Day(v) == keys[i] {
      OnDayMembers(vs, keys[i]);
    }
    forall v | v in vs ensures exists i :: 0 <= i < |bs| && v in bs[i].videos {
      assert Day(v) in keys;
      var i :| 0 <= i < |keys| && keys[i] == Day(v);
      assert v in bs[i].videos;
    }
  }

  /** The counts add up to the number of videos in the window. */
  lemma CountsAddUp(vs: seq<VideoRow>, today: int)
    ensures TotalCount(Buckets(vs, today)) == |vs|
  {
    TotalIsSum(DistinctDays(vs), vs, today);
    SumOverDistinctDays(vs);
  }

  /** The sum of |OnDay(vs, k)| over the keys. */
  function SumOn(keys: seq<int>, vs: seq<VideoRow>): nat {
    if keys == [] then 0 else SumOn(keys[..|keys| - 1], vs) + |OnDay(vs, keys[|keys| - 1])|
  }

  lemma {:induction false} TotalIsSum(keys: seq<int>, vs: seq<VideoRow>, today: int)
    ensures TotalCount(BucketsFor(keys, vs, today)) == SumOn(keys, vs)
    decreases |keys|
  {
    if keys != [] {
      var bs := BucketsFor(keys, vs, today);
      assert bs[..|bs| - 1] == BucketsFor(keys[..|keys| - 1], vs, today);
      TotalIsSum(keys[..|keys| - 1], vs, today);
    }
  }

  lemma {:induction false} SumOverDistinctDays(vs: seq<VideoRow>)
    ensures SumOn(DistinctDays(vs), vs) == |vs|
    decreases |vs|
  {
    if vs != [] {
      var p := vs[..|vs| - 1];
      var x := vs[|vs| - 1];
      assert vs == p + [x];
      var keys := DistinctDays(p);
      SumOverDistinctDays(p);
      SumSnoc(keys, p, x);
      if Day(x) !in keys {
        OnDayEmpty(p, Day(x));
        assert OnDay(vs, Day(x)) == OnDay(p, Day(x)) + [x];
        assert (keys + [Day(x)])[..|keys|] == keys;
      }
    }
  }

  /** One more video adds one to the sum over distinct keys when its day is
      one of them. */
  lemma {:induction false} SumSnoc(keys: seq<int>, p: seq<VideoRow>, x: VideoRow)
    requires forall i, j :: 0 <= i < j < |keys| ==> keys[i] != keys[j]
    ensures SumOn(keys, p + [x]) == SumOn(keys, p) + (if Day(x) in keys then 1 else 0)
    decreases |keys|
  {
    if keys != [] {
      var init := keys[..|keys| - 1];
      var k := keys[|keys| - 1];
      DistinctInit(keys);
      SumSnoc(init, p, x);
      OnDaySnoc(p, x, k);
      assert keys == init + [k];
    }
  }

  lemma OnDaySnoc(p: seq<VideoRow>, x: VideoRow, k: int)
    ensures |OnDay(p + [x], k)| == |OnDay(p, k)| + (if Day(x) == k then 1 else 0)
  {
    assert (p + [x])[..|p|] == p;
  }

  /** The keys but the last are distinct and do not hold the last. */
  lemma DistinctInit(keys: seq<int>)
    requires keys != [] && forall i, j :: 0 <= i < j < |keys| ==> keys[i] != keys[j]
    ensures var init := keys[..|keys| - 1];
      && (forall i, j :: 0 <= i < j < |init| ==> init[i] != init[j])
      && keys[|keys| - 1] !in init
  {
  }

  /** With the listing newest first, the buckets come in strictly
      descending date order. */
  lemma {:induction false} BucketsDescend(vs: seq<VideoRow>, today: int)
    requires forall i, j :: 0 <= i < j < |vs| ==> vs[i].uploaded >= vs[j].uploaded
    ensures var bs := Buckets(vs, today);
      forall i, j :: 0 <= i < j < |bs| ==> bs[i].date > bs[j].date
  {
    KeysDescend(vs);
    var keys := DistinctDays(vs);
    assert StrictlyDescending(keys);
    var bs := Buckets(vs, today);
    forall i, j | 0 <= i < j < |bs| ensures bs[i].date > bs[j].date {
      assert bs[i] == MakeBucket(vs, keys[i], today);
      assert bs[j] == MakeBucket(vs, keys[j], today);
    }
  }

  predicate StrictlyDescending(keys: seq<int>) {
    forall i, j :: 0 <= i < j < |keys| ==> keys[i] > keys[j]
  }

  lemma {:induction false} KeysDescend(vs: seq<VideoRow>)
    requires forall i, j :: 0 <= i < j < |vs| ==> vs[i].uploaded >= vs[j].uploaded
    ensures StrictlyDescending(DistinctDays(vs))
    decreases |vs|
  {
    if vs != [] {
      var p := vs[..|vs| - 1];
      var x := vs[|vs| - 1];
      assert forall i, j :: 0 <= i < j < |p| ==> p[i].uploaded >= p[j].uploaded;
      KeysDescend(p);
      var keys := DistinctDays(p);
      DistinctDaysMembers(p);
      forall i | 0 <= i < |keys| ensures keys[i] >= Day(x) {
        assert keys[i] in keys;
        var v :| v in p && Day(v) == keys[i];
        var m :| 0 <= m < |p| && p[m] == v;
        assert vs[m] == v;
        DayMonotone(v, x);
      }
      if Day(x) !in keys {
        var all := keys + [Day(x)];
        assert StrictlyDescending(keys);
        forall i, j | 0 <= i < j < |all| ensures all[i] > all[j] {
          if j == |keys| {
            assert all[j] == Day(x);
            assert all[i] == keys[i] && keys[i] in keys;
          } else {
            assert all[i] == keys[i] && all[j] == keys[j];
          }
        }
      }
    }
  }

  /** The window keeps exactly the videos of its days. */
  lemma WindowRule(vs: seq<VideoRow>, q: DateQuery, today: int)
    ensures var w := WindowOf(q, today);
      forall v :: v in Selected(vs, w) <==>
        v in vs && Day(v) >= w.from && (q.startDate.Some? && q.endDate.Some? ==> Day(v) <= q.endDate.value)
    ensures q.startDate.None? ==> WindowOf(q, today).until.None?
  {
  }
}
