/** The dashboard of frontend/src/pages/Dashboard.jsx: its status badges, the
    first five videos it lists with the actions each offers, the load of the
    stats and the video list, and the confirmed delete that drops one id from
    the list and reloads the stats. The request outcomes are inputs. */
module Dashboard {
  import opened Outcomes
  import opened BadgeVariants

  /** The fields of a video record the pages read. */
  datatype VideoCard = VideoCard(id: int, title: string, status: string, durationSeconds: Option<real>)

  /** The stats record of the profile endpoint. */
  datatype Stats = Stats(totalVideos: int, totalQueries: int, totalPdfs: int, totalProcessingHours: real)

  const ZeroStats: Stats := Stats(0, 0, 0, 0.0)

  // ---------------------------------------------------------------------------
  // getStatusBadge and the actions of a card

  /** `variants[status] || 'info'`. */
  function StatusVariant(status: string): (v: Variant)
    ensures status == "completed" ==> v == Success
    ensures status == "processing" ==> v == Warning
    ensures status == "failed" ==> v == Error
    ensures status !in {"completed", "processing", "failed"} ==> v == Info
  {
    match status
    case "completed" => Success
    case "processing" => Warning
    case "failed" => Error
    case "uploading" => Info
    case _ => Info
  }

  /** Each badge variant but info belongs to exactly one status. */
  lemma VariantNamesStatus(status: string)
    ensures StatusVariant(status) == Success <==> status == "completed"
    ensures StatusVariant(status) == Warning <==> status == "processing"
    ensures StatusVariant(status) == Error <==> status == "failed"
  {
  }

  /** The Chat and PDF buttons. */
  predicate ShowsChatAndPdf(v: VideoCard) {
    v.status == "completed"
  }

  /** The Delete button. */
  predicate ShowsDelete(v: VideoCard) {
    v.status == "failed"
  }

  /** A card offers the conversation or the deletion, never both, and a video
      still uploading or processing offers neither. */
  lemma ActionsExclusive(v: VideoCard)
    ensures !(ShowsChatAndPdf(v) && ShowsDelete(v))
    ensures v.status in {"uploading", "processing"} ==> !ShowsChatAndPdf(v) && !ShowsDelete(v)
    ensures ShowsChatAndPdf(v) <==> StatusVariant(v.status) == Success
    ensures ShowsDelete(v) <==> StatusVariant(v.status) == Error
  {
  }

  // ---------------------------------------------------------------------------
  // The list

  /** `videos.slice(0, 5)`. */
  function Recent(videos: seq<VideoCard>): (r: seq<VideoCard>)
    ensures |r| <= 5
    ensures |videos| <= 5 ==> r == videos
    ensures |videos| > 5 ==> |r| == 5
    ensures r == videos[..|r|]
  {
    if |videos| <= 5 then videos else videos[..5]
  }

  /** The videos listed are the newest five, in the list's order, and a card
      listed once stays listed when later videos are appended. */
  lemma RecentOfLonger(videos: seq<VideoCard>, more: seq<VideoCard>)
    ensures Recent(Recent(videos)) == Recent(videos)
    ensures |videos| >= 5 ==> Recent(videos + more) == Recent(videos)
    ensures Recent(videos) == Recent(videos + more)[..|Recent(videos)|]
  {
    var r := Recent(videos);
    assert (videos + more)[..|videos|] == videos;
    if |videos| > 5 {
      assert (videos + more)[..5] == videos[..5];
    }
  }

  /** `videos.filter(v => v.id !== videoId)`. */
  function WithoutId(videos: seq<VideoCard>, id: int): (r: seq<VideoCard>)
    ensures |r| <= |videos|
    ensures forall k :: 0 <= k < |r| ==> r[k].id != id
  {
    if videos == [] then []
    else WithoutId(videos[..|videos| - 1], id) + (if videos[|videos| - 1].id != id then [videos[|videos| - 1]] else [])
  }

  /** Exactly the cards without the id remain. */
  lemma {:induction false} WithoutIdMembers(videos: seq<VideoCard>, id: int)
    ensures forall x :: x in WithoutId(videos, id) <==> x in videos && x.id != id
    decreases |videos|
  {
    if videos != [] {
      var init, last := videos[..|videos| - 1], videos[|videos| - 1];
      WithoutIdMembers(init, id);
      assert videos == init + [last];
      assert WithoutId(videos, id) == WithoutId(init, id) + (if last.id != id then [last] else []);
    }
  }

  /** The filter keeps the order of what remains: it distributes over the
      parts of the list. */
  lemma {:induction false} WithoutIdConcat(a: seq<VideoCard>, b: seq<VideoCard>, id: int)
    ensures WithoutId(a + b, id) == WithoutId(a, id) + WithoutId(b, id)
    decreases |b|
  {
    if b == [] {
      assert a + b == a;
    } else {
      var b0, last := b[..|b| - 1], b[|b| - 1];
      assert (a + b)[..|a + b| - 1] == a + b0 && (a + b)[|a + b| - 1] == last;
      WithoutIdConcat(a, b0, id);
      var tail := if last.id != id then [last] else [];
      assert WithoutId(a + b, id) == WithoutId(a + b0, id) + tail;
      assert WithoutId(b, id) == WithoutId(b0, id) + tail;
    }
  }

  /** A list without the id stays as it is. */
  lemma {:induction false} WithoutIdAbsent(videos: seq<VideoCard>, id: int)
    requires forall k :: 0 <= k < |videos| ==> videos[k].id != id
    ensures WithoutId(videos, id) == videos
    decreases |videos|
  {
    if videos != [] {
      var init, last := videos[..|videos| - 1], videos[|videos| - 1];
      assert forall k :: 0 <= k < |init| ==> init[k] == videos[k];
      WithoutIdAbsent(init, id);
      assert WithoutId(videos, id) == WithoutId(init, id) + [last];
      assert init + [last] == videos;
    }
  }

  /** Removing the single card with an id takes out that card and no other:
      the list closes up around it. */
  lemma WithoutIdRemovesOne(before: seq<VideoCard>, v: VideoCard, after: seq<VideoCard>)
    requires forall k :: 0 <= k < |before| ==> before[k].id != v.id
    requires forall k :: 0 <= k < |after| ==> after[k].id != v.id
    ensures WithoutId(before + [v] + after, v.id) == before + after
  {
    var head := before + [v];
    WithoutIdConcat(head, after, v.id);
    WithoutIdConcat(before, [v], v.id);
    WithoutIdAbsent(before, v.id);
    WithoutIdAbsent(after, v.id);
    WithoutIdSelf(v);
    assert WithoutId(head, v.id) == before + [];
    assert before + [] == before;
  }

  lemma WithoutIdSelf(v: VideoCard)
    ensures WithoutId([v], v.id) == []
  {
    assert [v][..0] == [];
  }

  /** What the videos request returns: a paginated object with its results,
      or a bare list. */
  datatype VideosPayload = Paged(results: seq<VideoCard>) | Listed(videos: seq<VideoCard>)

  /** `videosRes.data.results || videosRes.data`. */
  function PayloadVideos(p: VideosPayload): (vs: seq<VideoCard>)
    ensures p.Paged? ==> vs == p.results
    ensures p.Listed? ==> vs == p.videos
  {
    match p
    case Paged(rs) => rs
    case Listed(vs) => vs
  }

  const DeleteFailedAlert: string := "Failed to delete video. Please try again."

  class DashboardPage {
    var stats: Stats
    var videos: seq<VideoCard>
    var loading: bool

    constructor ()
      ensures stats == ZeroStats && videos == [] && loading
    {
      stats := ZeroStats;
      videos := [];
      loading := true;
    }

    /** loadData given the Promise.all outcome: None when either request
        failed, else each response's data field (None when falsy). Each
        present part is taken, and loading ends either way. */
    method Load(outcome: Option<(Option<Stats>, Option<VideosPayload>)>)
      modifies this
      ensures outcome.None? ==> stats == old(stats) && videos == old(videos)
      ensures outcome.Some? ==>
        stats == (if outcome.value.0.Some? then outcome.value.0.value else old(stats))
        && videos == (if outcome.value.1.Some? then PayloadVideos(outcome.value.1.value) else old(videos))
      ensures !loading
    {
      if outcome.Some? {
        var (statsData, videosData) := outcome.value;
        if statsData.Some? {
          stats := statsData.value;
        }
        if videosData.Some? {
          videos := PayloadVideos(videosData.value);
        }
      }
      loading := false;
    }

    /** handleDelete: a declined confirmation changes nothing; a failed
        delete alerts and changes nothing; a successful one drops the id
        from the list and takes the reloaded stats when they arrive, and a
        failed reload raises the same alert. `statsReload` is None when the
        stats request failed, else its data field. */
    method Delete(videoId: int, confirmed: bool, deleted: bool, statsReload: Option<Option<Stats>>)
        returns (alert: Option<string>)
      modifies this
      ensures !confirmed || !deleted ==> videos == old(videos) && stats == old(stats)
      ensures confirmed && deleted ==> videos == WithoutId(old(videos), videoId)
      ensures confirmed && deleted && statsReload.Some? && statsReload.value.Some? ==> stats == statsReload.value.value
      ensures confirmed && deleted && !(statsReload.Some? && statsReload.value.Some?) ==> stats == old(stats)
      ensures alert.Some? <==> confirmed && (!deleted || statsReload.None?)
      ensures alert.Some? ==> alert.value == DeleteFailedAlert
      ensures loading == old(loading)
    {
      if !confirmed {
        return None;
      }
      if !deleted {
        return Some(DeleteFailedAlert);
      }
      videos := WithoutId(videos, videoId);
      if statsReload.None? {
        return Some(DeleteFailedAlert);
      }
      if statsReload.value.Some? {
        stats := statsReload.value.value;
      }
      alert := None;
    }
  }
}
