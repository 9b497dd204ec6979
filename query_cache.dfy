/** query_video of backend/video_processor/query.py: the refusal of a video
    that is not processed, the one-entry embeddings cache keyed by the
    modification time of embeddings.joblib, the choice of the video's chunks
    by title (all chunks when none match) and the timestamps taken from the
    best search result. Loading the file, clean_filename, search_chunks and
    format_chat_answer are given as inputs. */
module QueryCache {
  import opened Outcomes
  import opened Text
  import opened VideoModels
  import opened EmbeddingStore
  import VideoActions

  // ---------------------------------------------------------------------------
  // The base name

  /** `name.rsplit('.', 1)[0]`: the name without its last '.' and what
      follows it; a name without '.' stays whole. */
  function Stem(name: string): (r: string)
    ensures r == name <==> '.' !in name
    ensures |r| <= |name| && name[..|r|] == r
    ensures r != name ==> name[|r|] == '.' && forall k :: |r| < k < |name| ==> name[k] != '.'
  {
    var i := LastIndexOf(name, '.');
    if i < 0 then name else name[..i]
  }

  /** The title the chunks of a stored file carry: clean_filename applied to
      the stem of the file's last path component. */
  function BaseName(fileName: string, cleanName: string -> string): string {
    cleanName(Stem(Basename(fileName)))
  }

  /** The directory part of the stored path never matters. */
  lemma BaseNameIgnoresDirectory(dir: string, fileName: string, cleanName: string -> string)
    ensures BaseName(dir + "/" + fileName, cleanName) == BaseName(Basename(fileName), cleanName)
  {
    var d := dir + "/";
    var p := d + fileName;
    LastIndexOfConcat(d, fileName, '/');
    LastIndexOfConcat(dir, "/", '/');
    assert LastIndexOf("/", '/') == 0;
    assert Basename(p) == Basename(fileName) by {
      if '/' !in fileName {
        LastIndexOfAbsent(fileName, '/');
        assert p[|d|..] == fileName;
      } else {
        assert p[LastIndexOf(p, '/') + 1..] == fileName[LastIndexOf(fileName, '/') + 1..];
      }
    }
    LastIndexOfAbsent(Basename(fileName), '/');
  }

  // ---------------------------------------------------------------------------
  // Choosing the chunks

  /** `df[df['title'] == title]`: the rows with that title, in table order. */
  function FilterTitle(rows: seq<Row>, title: string): (r: seq<Row>)
    ensures |r| <= |rows|
    ensures forall k :: 0 <= k < |r| ==> r[k].chunk.title == title
  {
    if rows == [] then []
    else
      var rest := FilterTitle(rows[1..], title);
      if rows[0].chunk.title == title then [rows[0]] + rest else rest
  }

  /** The filter keeps exactly the rows with the title. */
  lemma {:induction false} FilterTitleMembers(rows: seq<Row>, title: string)
    ensures forall x :: x in FilterTitle(rows, title) <==> x in rows && x.chunk.title == title
    decreases |rows|
  {
    if rows != [] {
      FilterTitleMembers(rows[1..], title);
      assert rows == [rows[0]] + rows[1..];
    }
  }

  /** Filtering keeps the table's order: the rows of a + b that match are
      those of a, then those of b. */
  lemma {:induction false} FilterTitleConcat(a: seq<Row>, b: seq<Row>, title: string)
    ensures FilterTitle(a + b, title) == FilterTitle(a, title) + FilterTitle(b, title)
    decreases |a|
  {
    if a != [] {
      assert (a + b)[0] == a[0] && (a + b)[1..] == a[1..] + b;
      FilterTitleConcat(a[1..], b, title);
      if a[0].chunk.title == title {
        calc {
          FilterTitle(a + b, title);
          [a[0]] + FilterTitle(a[1..] + b, title);
          [a[0]] + (FilterTitle(a[1..], title) + FilterTitle(b, title));
          ([a[0]] + FilterTitle(a[1..], title)) + FilterTitle(b, title);
        }
      } else {
        assert FilterTitle(a + b, title) == FilterTitle(a[1..] + b, title);
        assert FilterTitle(a, title) == FilterTitle(a[1..], title);
      }
    } else {
      assert a + b == b;
    }
  }

  /** The rows searched: the video's own rows, or every row when it has none. */
  function Scope(rows: seq<Row>, title: string): seq<Row> {
    var own := FilterTitle(rows, title);
    if |own| == 0 then rows else own
  }

  /** When some row carries the title, exactly the rows with that title are
      searched; otherwise the whole table is. Either way the search sees rows
      whenever the table has any. */
  lemma ScopeChoice(rows: seq<Row>, title: string)
    ensures (exists i :: 0 <= i < |rows| && rows[i].chunk.title == title) ==>
      Scope(rows, title) == FilterTitle(rows, title) &&
      forall x :: x in Scope(rows, title) ==> x.chunk.title == title
    ensures (forall i :: 0 <= i < |rows| ==> rows[i].chunk.title != title) ==>
      Scope(rows, title) == rows
    ensures |Scope(rows, title)| == 0 <==> |rows| == 0
  {
    if exists i :: 0 <= i < |rows| && rows[i].chunk.title == title {
      var i :| 0 <= i < |rows| && rows[i].chunk.title == title;
      FilterTitleMembers(rows, title);
      assert rows[i] in FilterTitle(rows, title);
    }
  }

  /** Filtering by the same title twice changes nothing more. */
  lemma {:induction false} FilterTitleIdempotent(rows: seq<Row>, title: string)
    ensures FilterTitle(FilterTitle(rows, title), title) == FilterTitle(rows, title)
    decreases |rows|
  {
    if rows != [] {
      FilterTitleIdempotent(rows[1..], title);
      var rest := FilterTitle(rows[1..], title);
      if rows[0].chunk.title == title {
        assert ([rows[0]] + rest)[1..] == rest;
      }
    }
  }

  // ---------------------------------------------------------------------------
  // The answer

  /** One result of search_chunks, as far as query_video looks at it. */
  datatype Hit = Hit(title: string, start: real, end: real, text: string)

  datatype Answer = Answer(
    answer: string,
    timestampStart: Option<real>,
    timestampEnd: Option<real>,
    rawResults: seq<Hit>)

  /** The span of the best result, or no span when there are no results. */
  function Timestamps(results: seq<Hit>): (r: (Option<real>, Option<real>))
    ensures r.0.None? <==> results == []
    ensures r.1.None? <==> results == []
    ensures results != [] ==> r.0.value == results[0].start && r.1.value == results[0].end
  {
    if results == [] then (None, None) else (Some(results[0].start), Some(results[0].end))
  }

  /** The reply built from a table: search the scope, format the results, and
      report the top result's span. */
  function AnswerFrom(rows: seq<Row>, fileName: string, question: string,
                      cleanName: string -> string,
                      search: (seq<Row>, string) -> seq<Hit>,
                      format: seq<Hit> -> string): (a: Answer)
    ensures a.rawResults == search(Scope(rows, BaseName(fileName, cleanName)), question)
    ensures (a.timestampStart, a.timestampEnd) == Timestamps(a.rawResults)
    ensures a.answer == format(a.rawResults)
  {
    var results := search(Scope(rows, BaseName(fileName, cleanName)), question);
    var ts := Timestamps(results);
    Answer(format(results), ts.0, ts.1, results)
  }

  // ---------------------------------------------------------------------------
  // The module-level cache

  /** _embeddings_cache and _embeddings_file_mtime. A missing file has no
      mtime (None); `loads` counts the times the file was read. */
  class EmbeddingsCache {
    var cache: Option<seq<Row>>
    var mtime: Option<real>
    ghost var loads: nat

    constructor ()
      ensures cache.None? && mtime.None? && loads == 0
    {
      cache := None;
      mtime := None;
      loads := 0;
    }

    /** Whether a query made when the file's mtime is `current` reads the file. */
    predicate Miss(current: Option<real>)
      reads this
    {
      cache.None? || mtime != current
    }

    /** query_video for a video with the given status and stored file name.
        `current` is the file's mtime now, `load` what joblib.load gives
        (an error when the file cannot be read). */
    method QueryVideo(status: VideoStatus, fileName: string, question: string,
                      current: Option<real>, load: Result<seq<Row>, string>,
                      cleanName: string -> string,
                      search: (seq<Row>, string) -> seq<Hit>,
                      format: seq<Hit> -> string)
      returns (r: Result<Answer, string>)
      modifies this
      ensures status != Completed ==>
        r == Err(VideoActions.NotCompleteMessage)
        && cache == old(cache) && mtime == old(mtime) && loads == old(loads)
      ensures status == Completed && old(Miss(current)) && load.Err? ==>
        r == Err(load.error)
        && cache == old(cache) && mtime == old(mtime) && loads == old(loads) + 1
      ensures status == Completed && old(Miss(current)) && load.Ok? ==>
        r == Ok(AnswerFrom(load.value, fileName, question, cleanName, search, format))
        && cache == Some(load.value) && mtime == current && loads == old(loads) + 1
      ensures status == Completed && !old(Miss(current)) ==>
        r == Ok(AnswerFrom(old(cache).value, fileName, question, cleanName, search, format))
        && cache == old(cache) && mtime == old(mtime) && loads == old(loads)
      ensures r.Ok? ==> !Miss(current)
    {
      if status != Completed {
        return Err(VideoActions.NotCompleteMessage);
      }
      var df := Fetch(current, load);
      if df.Err? {
        return Err(df.error);
      }
      r := Ok(AnswerFrom(df.value, fileName, question, cleanName, search, format));
    }

    /** The cache step: on a miss the file is read and, when the read
        succeeds, it and its mtime are remembered; on a hit the cached table
        is used. */
    method Fetch(current: Option<real>, load: Result<seq<Row>, string>) returns (df: Result<seq<Row>, string>)
      modifies this
      ensures old(Miss(current)) && load.Err? ==>
        df == Err(load.error) && cache == old(cache) && mtime == old(mtime) && loads == old(loads) + 1
      ensures old(Miss(current)) && load.Ok? ==>
        df == Ok(load.value) && cache == Some(load.value) && mtime == current && loads == old(loads) + 1
      ensures !old(Miss(current)) ==>
        df == Ok(old(cache).value) && cache == old(cache) && mtime == old(mtime) && loads == old(loads)
      ensures df.Ok? ==> !Miss(current)
    {
      if cache.None? || mtime != current {
        loads := loads + 1;
        if load.Err? {
          return Err(load.error);
        }
        cache := Some(load.value);
        mtime := current;
        df := load;
      } else {
        df := Ok(cache.value);
      }
    }
  }
}
