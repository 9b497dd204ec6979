/** The backfill_youtube_urls management command
    (backend/api/management/commands/backfill_youtube_urls.py): reading a
    YouTube video id back out of a yt-dlp file name, and the loop that sets
    youtube_url from it. The two regular expressions are written out as
    matchers with Python's re semantics: `$` matches at the end of the text
    or before a final '\n', and `[^.]` matches any character but '.'. */
module Backfill {
  import opened Outcomes
  import opened Text

  // ---------------------------------------------------------------------------
  // Ids

  /** [A-Za-z0-9_-] */
  predicate IdChar(c: char) {
    'A' <= c <= 'Z' || 'a' <= c <= 'z' || '0' <= c <= '9' || c == '_' || c == '-'
  }

  predicate AllIdChars(s: string) {
    forall k :: 0 <= k < |s| ==> IdChar(s[k])
  }

  const IdLength: nat := 11

  /** str.isdigit() on a non-empty ASCII string. */
  predicate IsDigitString(s: string) {
    s != [] && AllDigits(s)
  }

  // ---------------------------------------------------------------------------
  // The two patterns

  /** YT_ID_BRACKETED  \[([A-Za-z0-9_-]{11})\](?:\.[^.]+)?$
      and YT_ID_UNDERSCORE  _([A-Za-z0-9_-]{11})(?:\.[^.]+)?$ */
  datatype Pattern = Bracketed | Underscored

  /** `(?:\.[^.]+)?$` matches from position p: at the end, before a final
      newline, or as '.' followed by a non-empty rest without '.'. */
  predicate TailMatches(t: string, p: nat)
    requires p <= |t|
  {
    p == |t| || (p == |t| - 1 && t[p] == '\n') || (p + 1 < |t| && t[p] == '.' && '.' !in t[p + 1..])
  }

  /** The opening character, and the offset at which the tail starts. */
  function Opening(pat: Pattern): char {
    if pat == Bracketed then '[' else '_'
  }

  function TailOffset(pat: Pattern): nat {
    if pat == Bracketed then IdLength + 2 else IdLength + 1
  }

  /** The pattern matches at position i. */
  predicate MatchesAt(pat: Pattern, t: string, i: nat) {
    && i + TailOffset(pat) <= |t|
    && t[i] == Opening(pat)
    && AllIdChars(t[i + 1..i + 1 + IdLength])
    && (pat == Bracketed ==> t[i + 1 + IdLength] == ']')
    && TailMatches(t, i + TailOffset(pat))
  }

  /** The group of a match at i. */
  function Group(t: string, i: nat): string
    requires i + 1 + IdLength <= |t|
  {
    t[i + 1..i + 1 + IdLength]
  }

  /** re.search: the leftmost position from `from` on where the pattern matches. */
  function FirstMatch(pat: Pattern, t: string, from: nat): (r: Option<nat>)
    requires from <= |t|
    ensures r.Some? ==> from <= r.value < |t| && MatchesAt(pat, t, r.value)
    ensures r.Some? ==> forall i :: from <= i < r.value ==> !MatchesAt(pat, t, i)
    ensures r.None? ==> forall i :: from <= i < |t| ==> !MatchesAt(pat, t, i)
    decreases |t| - from
  {
    if from == |t| then None
    else if MatchesAt(pat, t, from) then Some(from)
    else FirstMatch(pat, t, from + 1)
  }

  /** The group of the leftmost match, if any. */
  function SearchGroup(pat: Pattern, t: string): (r: Option<string>)
    ensures r.Some? ==> |r.value| == IdLength && AllIdChars(r.value)
  {
    var m := FirstMatch(pat, t, 0);
    if m.None? then None else Some(Group(t, m.value))
  }

  // ---------------------------------------------------------------------------
  // Step 3: the underscore-separated parts, last first

  /** A part that step 3 accepts. */
  predicate Qualifies(part: string) {
    |part| == IdLength && AllIdChars(part) && !IsDigitString(part)
  }

  /** The last part that qualifies. */
  function LastQualifying(parts: seq<string>): (r: Option<string>)
    ensures r.Some? ==> r.value in parts && Qualifies(r.value)
    ensures r.None? ==> forall p :: p in parts ==> !Qualifies(p)
  {
    if parts == [] then None
    else if Qualifies(parts[|parts| - 1]) then Some(parts[|parts| - 1])
    else LastQualifying(parts[..|parts| - 1])
  }

  /** The reversed scan with early return. */
  method ScanParts(parts: seq<string>) returns (r: Option<string>)
    ensures r == LastQualifying(parts)
  {
    var i := |parts|;
    assert parts[..i] == parts;
    while i > 0
      invariant 0 <= i <= |parts|
      invariant LastQualifying(parts) == LastQualifying(parts[..i])
    {
      assert parts[..i][..i - 1] == parts[..i - 1];
      if Qualifies(parts[i - 1]) {
        return Some(parts[i - 1]);
      }
      i := i - 1;
    }
    return None;
  }

  // ---------------------------------------------------------------------------
  // extract_youtube_id_from_filename

  /** The three steps on a base name, with step 2 searched on `subject`. */
  function Cascade(base: string, subject: string): (r: Option<string>)
    ensures r.Some? ==> |r.value| == IdLength && AllIdChars(r.value)
  {
    var bracketed := SearchGroup(Bracketed, base);
    if bracketed.Some? then bracketed
    else
      var underscored := SearchGroup(Underscored, subject);
      if underscored.Some? && !IsDigitString(underscored.value) then underscored
      else LastQualifying(Split(SplitExt(base).0, '_'))
  }

  /** The function as written: step 2 searches `name_no_ext + '.'`. */
  function ExtractAsWritten(fileName: string): Option<string> {
    var base := Basename(fileName);
    Cascade(base, SplitExt(base).0 + ".")
  }

  /** The function as evidently intended: step 2 searches `name_no_ext`. */
  function Extract(fileName: string): Option<string> {
    var base := Basename(fileName);
    Cascade(base, SplitExt(base).0)
  }

  /** Which extract_youtube_id_from_filename the command calls: the code as
      written, or the corrected one. */
  datatype Version = AsWritten | Corrected

  function ExtractBy(version: Version, fileName: string): Option<string> {
    match version
    case AsWritten => ExtractAsWritten(fileName)
    case Corrected => Extract(fileName)
  }

  /** extract_youtube_id_from_filename, as written or corrected: the versions
      differ only in the text step 2 searches. */
  method ExtractYoutubeId(version: Version, fileName: string) returns (r: Option<string>)
    ensures r == ExtractBy(version, fileName)
  {
    var base := Basename(fileName);
    var bracketed := SearchGroup(Bracketed, base);
    if bracketed.Some? {
      return bracketed;
    }
    var name := SplitExt(base).0;
    var subject := if version == AsWritten then name + "." else name;
    var underscored := SearchGroup(Underscored, subject);
    if underscored.Some? && !IsDigitString(underscored.value) {
      return underscored;
    }
    r := ScanParts(Split(name, '_'));
  }

  // ---------------------------------------------------------------------------
  // Properties of the extraction

  /** The result is None or an 11-character id over [A-Za-z0-9_-]; steps 2
      and 3 never give an all-digit id. */
  lemma ResultShape(fileName: string)
    ensures var r := Extract(fileName);
      r.None? || (|r.value| == IdLength && AllIdChars(r.value))
    ensures var base := Basename(fileName);
      var r := Extract(fileName);
      SearchGroup(Bracketed, base).None? && r.Some? ==> !IsDigitString(r.value)
  {
    var base := Basename(fileName);
    var name := SplitExt(base).0;
    var r := Extract(fileName);
    assert r == Cascade(base, name);
    if SearchGroup(Bracketed, base).None? && r.Some? {
      var underscored := SearchGroup(Underscored, name);
      if !(underscored.Some? && !IsDigitString(underscored.value)) {
        assert r == LastQualifying(Split(SplitExt(base).0, '_'));
        assert Qualifies(r.value);
      }
    }
  }

  /** Only the base name counts: directories in front change nothing. */
  lemma DirectoriesIgnored(dir: string, fileName: string)
    ensures Extract(dir + "/" + fileName) == Extract(fileName)
    ensures ExtractAsWritten(dir + "/" + fileName) == ExtractAsWritten(fileName)
  {
    BasenameOfJoin(dir, fileName);
  }

  lemma BasenameOfJoin(dir: string, fileName: string)
    ensures Basename(dir + "/" + fileName) == Basename(fileName)
  {
    var p := dir + "/" + fileName;
    var a := dir + "/";
    assert p == a + fileName;
    LastIndexOfConcat(a, fileName, '/');
    if '/' !in fileName {
      LastIndexOfIs(a, '/', |dir|);
      assert p[|dir| + 1..] == fileName;
    } else {
      var j := LastIndexOf(fileName, '/');
      assert p[|a| + j + 1..] == fileName[j + 1..];
    }
  }

  /** A match of the underscore pattern needs an id character just before
      the tail, or a tail of its own; a text ending in '.' has neither, so
      step 2 as written never matches. */
  lemma {:induction false} StepTwoAsWrittenNeverMatches(name: string)
    ensures SearchGroup(Underscored, name + ".") == None
  {
    var t := name + ".";
    assert t[|t| - 1] == '.';
    forall i | 0 <= i < |t| ensures !MatchesAt(Underscored, t, i) {
      var p := i + TailOffset(Underscored);
      if p <= |t| && AllIdChars(t[i + 1..i + 1 + IdLength]) {
        assert IdChar(t[p - 1]) by { assert t[p - 1] == t[i + 1..i + 1 + IdLength][IdLength - 1]; }
        assert p != |t|;
        if p + 1 < |t| {
          assert t[|t| - 1] in t[p + 1..];
        }
        assert !TailMatches(t, p);
      }
    }
  }

  /** The bracketed form "Title [ID].ext" gives ID, whatever follows, when the
      title has no '[' and the extension no '.' beyond its first character. */
  lemma BracketedFormFound(title: string, id: string, ext: string)
    requires '/' !in title && '[' !in title
    requires |id| == IdLength && AllIdChars(id)
    requires ext == [] || (|ext| >= 2 && ext[0] == '.' && '.' !in ext[1..] && '/' !in ext)
    ensures Extract(title + " [" + id + "]" + ext) == Some(id)
    ensures ExtractAsWritten(title + " [" + id + "]" + ext) == Some(id)
  {
    var s := title + " [" + id + "]" + ext;
    NoSlashBasename(s);
    BracketedMatch(title, id, ext);
    NoEarlierBracket(title, s);
    LeftmostMatch(Bracketed, s, |title| + 1);
    assert SearchGroup(Bracketed, s) == Some(id);
  }

  lemma BracketedMatch(title: string, id: string, ext: string)
    requires |id| == IdLength && AllIdChars(id)
    requires ext == [] || (|ext| >= 2 && ext[0] == '.' && '.' !in ext[1..])
    ensures var s := title + " [" + id + "]" + ext;
      MatchesAt(Bracketed, s, |title| + 1) && Group(s, |title| + 1) == id
  {
    var s := title + " [" + id + "]" + ext;
    var i := |title| + 1;
    assert s[i] == '[';
    assert s[i + 1..i + 1 + IdLength] == id;
    assert s[i + 1 + IdLength] == ']';
    var p := i + TailOffset(Bracketed);
    assert s[p..] == ext;
    if ext != [] {
      assert s[p + 1..] == ext[1..];
    }
  }

  /** No '[' before position |title| + 1 when the title has none. */
  lemma NoEarlierBracket(title: string, s: string)
    requires '[' !in title && |title| < |s| && s[..|title|] == title && s[|title|] == ' '
    ensures forall j :: 0 <= j < |title| + 1 ==> !MatchesAt(Bracketed, s, j)
  {
    forall j | 0 <= j < |title| + 1 ensures s[j] != '[' {
      if j < |title| { assert s[j] == title[j]; }
    }
  }

  /** A text without '/' is its own base name. */
  lemma NoSlashBasename(s: string)
    requires '/' !in s
    ensures Basename(s) == s
  {
    LastIndexOfAbsent(s, '/');
  }

  /** The underscore form "Title_ID.ext" gives ID in the corrected function,
      for any id that is not all digits, '_' in it or not. */
  lemma UnderscoreFormFound(title: string, id: string, ext: string)
    requires '/' !in title && '.' !in title && '[' !in title
    requires |id| == IdLength && AllIdChars(id) && !IsDigitString(id)
    requires ext == [] || (|ext| >= 2 && ext[0] == '.' && '.' !in ext[1..] && '/' !in ext && '[' !in ext)
    ensures Extract(title + "_" + id + ext) == Some(id)
  {
    var name := title + "_" + id;
    var s := name + ext;
    IdCharsArePlain(id);
    PlainConcat(title, id, ext);
    NoSlashBasename(s);
    NoBracketNoMatch(s);
    SplitExtOfNamed(name, ext);
    UnderscoreMatch(title, id);
    NoEarlierUnderscore(title, id);
    LeftmostMatch(Underscored, name, |title|);
    assert SearchGroup(Underscored, name) == Some(id);
    assert Extract(s) == Cascade(s, name);
  }

  /** The leftmost match is the one with no match before it. */
  lemma LeftmostMatch(pat: Pattern, t: string, i: nat)
    requires i < |t| && MatchesAt(pat, t, i)
    requires forall j :: 0 <= j < i ==> !MatchesAt(pat, t, j)
    ensures FirstMatch(pat, t, 0) == Some(i)
  {
  }

  /** An id has no '/', '.', '[' or newline. */
  lemma IdCharsArePlain(id: string)
    requires AllIdChars(id)
    ensures '/' !in id && '.' !in id && '[' !in id && '\n' !in id
  {
    forall k | 0 <= k < |id| ensures id[k] != '/' && id[k] != '.' && id[k] != '[' && id[k] != '\n' {
      assert IdChar(id[k]);
    }
  }

  lemma PlainConcat(title: string, id: string, ext: string)
    requires '/' !in title && '.' !in title && '[' !in title
    requires '/' !in id && '.' !in id && '[' !in id
    requires '/' !in ext && '[' !in ext
    ensures var name := title + "_" + id;
      '.' !in name && '/' !in name + ext && '[' !in name + ext
  {
    var name := title + "_" + id;
    var s := name + ext;
    forall k | 0 <= k < |s| ensures s[k] != '/' && s[k] != '[' && (k < |name| ==> s[k] != '.') {
      if k < |title| { assert s[k] == title[k]; }
      else if k == |title| { }
      else if k < |name| { assert s[k] == id[k - |title| - 1]; }
      else { assert s[k] == ext[k - |name|]; }
    }
    forall k | 0 <= k < |name| ensures name[k] != '.' {
      assert name[k] == s[k];
    }
  }

  lemma UnderscoreMatch(title: string, id: string)
    requires |id| == IdLength && AllIdChars(id)
    ensures var name := title + "_" + id;
      MatchesAt(Underscored, name, |title|) && Group(name, |title|) == id
  {
    var name := title + "_" + id;
    assert name[|title| + 1..|title| + 1 + IdLength] == id;
  }

  /** No underscore match starts inside the title: its tail would start at
      a character that is neither '.' nor a final newline. */
  lemma NoEarlierUnderscore(title: string, id: string)
    requires '.' !in title && |id| == IdLength && AllIdChars(id)
    ensures forall j :: 0 <= j < |title| ==> !MatchesAt(Underscored, title + "_" + id, j)
  {
    var name := title + "_" + id;
    IdCharsArePlain(id);
    forall j | 0 <= j < |title| ensures !MatchesAt(Underscored, name, j) {
      var p := j + TailOffset(Underscored);
      if p < |title| {
        assert name[p] == title[p];
      } else if p > |title| {
        assert name[p] == id[p - |title| - 1];
      }
    }
  }

  /** A text without '[' has no bracketed match. */
  lemma NoBracketNoMatch(s: string)
    requires '[' !in s
    ensures SearchGroup(Bracketed, s) == None
  {
    forall i | 0 <= i < |s| ensures !MatchesAt(Bracketed, s, i) {
      assert s[i] in s;
    }
  }

  /** splitext of "<name><ext>" where name has no '.' and ext is a plain extension. */
  lemma SplitExtOfNamed(name: string, ext: string)
    requires name != [] && name[|name| - 1] != '.' && '.' !in name && '/' !in name
    requires ext == [] || (|ext| >= 2 && ext[0] == '.' && '.' !in ext[1..] && '/' !in ext)
    ensures SplitExt(name + ext).0 == name
  {
    var s := name + ext;
    assert '/' !in s by {
      forall k | 0 <= k < |s| ensures s[k] != '/' {
        if k < |name| { assert s[k] == name[k] && name[k] in name; }
        else { assert s[k] == ext[k - |name|] && ext[k - |name|] in ext; }
      }
    }
    LastIndexOfAbsent(s, '/');
    if ext == [] {
      assert s == name;
      LastIndexOfAbsent(s, '.');
    } else {
      assert s[|name|] == '.';
      assert s[|name| + 1..] == ext[1..];
      LastIndexOfIs(s, '.', |name|);
      assert s[0..|name|] == name;
      assert !AllIn(s[0..|name|], {'.'}) by { assert name[|name| - 1] != '.'; }
      assert s[..|name|] == name;
    }
  }

  /** The finding: a name "Title_ID.ext" whose id has an '_' in it, such as
      "Talk_abc_defghij.mp4". The function as written misses the id (step 2
      cannot match, and step 3 only sees the pieces between underscores,
      all shorter than an id); the corrected one finds it. */
  predicate MissedShape(title: string, id: string, ext: string) {
    && '/' !in title && '.' !in title && '[' !in title && '_' !in title && |title| != IdLength
    && |id| == IdLength && AllIdChars(id) && !IsDigitString(id) && '_' in id
    && (ext == [] || (|ext| >= 2 && ext[0] == '.' && '.' !in ext[1..] && '/' !in ext && '[' !in ext))
  }

  lemma UnderscoreIdMissedAsWritten(title: string, id: string, ext: string)
    requires MissedShape(title, id, ext)
    ensures ExtractAsWritten(title + "_" + id + ext) == None
    ensures Extract(title + "_" + id + ext) == Some(id)
  {
    UnderscoreFormFound(title, id, ext);
    AsWrittenMisses(title, id, ext);
  }

  lemma AsWrittenMisses(title: string, id: string, ext: string)
    requires MissedShape(title, id, ext)
    ensures ExtractAsWritten(title + "_" + id + ext) == None
  {
    var name := title + "_" + id;
    var s := name + ext;
    IdCharsArePlain(id);
    PlainConcat(title, id, ext);
    NoSlashBasename(s);
    NoBracketNoMatch(s);
    SplitExtOfNamed(name, ext);
    StepTwoAsWrittenNeverMatches(name);
    NoPieceQualifies(title, id);
  }

  /** Step 3 finds nothing: the title is not 11 long and the id's pieces are
      shorter than an id. */
  lemma NoPieceQualifies(title: string, id: string)
    requires '_' !in title && |title| != IdLength && |id| == IdLength && '_' in id
    ensures LastQualifying(Split(title + "_" + id, '_')) == None
  {
    assert title + "_" + id == title + ['_'] + id;
    SplitFirst(title, id, '_');
    SplitPiecesShorter(id, '_');
    forall p | p in Split(title + "_" + id, '_') ensures !Qualifies(p) {
      if p != title {
        assert p in Split(id, '_');
      }
    }
  }

  /** The example of the finding. */
  lemma UnderscoreIdExample()
    ensures MissedShape("Talk", "abc_defghij", ".mp4")
  {
    var id := "abc_defghij";
    assert id[3] == '_';
    assert !IsDigit(id[0]);
  }

  // ---------------------------------------------------------------------------
  // Command.handle

  const WatchPrefix: string := "https://www.youtube.com/watch?v="

  /** A Video row as the command sees it: `fileName` is video.file.name, or
      "" when there is no file. */
  datatype VideoRecord = VideoRecord(id: int, fileName: string, youtubeUrl: Option<string>)

  /** Without --all only videos with a null or empty youtube_url are selected. */
  predicate Selected(v: VideoRecord, processAll: bool) {
    processAll || v.youtubeUrl.None? || v.youtubeUrl == Some("")
  }

  /** A selected video whose file name carries an id. */
  predicate Found(v: VideoRecord, processAll: bool, version: Version) {
    Selected(v, processAll) && ExtractBy(version, v.fileName).Some?
  }

  /** The row after the command. */
  function Backfilled(v: VideoRecord, processAll: bool, dryRun: bool, version: Version): (w: VideoRecord)
    ensures w.id == v.id && w.fileName == v.fileName
    ensures w != v ==> Found(v, processAll, version) && !dryRun
    ensures Found(v, processAll, version) && !dryRun ==>
      w.youtubeUrl == Some(WatchPrefix + ExtractBy(version, v.fileName).value)
  {
    if Found(v, processAll, version) && !dryRun then
      v.(youtubeUrl := Some(WatchPrefix + ExtractBy(version, v.fileName).value))
    else v
  }

  function BackfilledAll(rows: seq<VideoRecord>, processAll: bool, dryRun: bool, version: Version): (r: seq<VideoRecord>)
    ensures |r| == |rows| && forall i :: 0 <= i < |rows| ==> r[i] == Backfilled(rows[i], processAll, dryRun, version)
  {
    seq(|rows|, i requires 0 <= i < |rows| => Backfilled(rows[i], processAll, dryRun, version))
  }

  /** The number of selected rows among the first n, and of those with an id. */
  function SelectedCount(rows: seq<VideoRecord>, processAll: bool, n: nat): nat
    requires n <= |rows|
  {
    if n == 0 then 0
    else SelectedCount(rows, processAll, n - 1) + (if Selected(rows[n - 1], processAll) then 1 else 0)
  }

  function FoundCount(rows: seq<VideoRecord>, processAll: bool, version: Version, n: nat): nat
    requires n <= |rows|
  {
    if n == 0 then 0
    else FoundCount(rows, processAll, version, n - 1) + (if Found(rows[n - 1], processAll, version) then 1 else 0)
  }

  /** A sequence that agrees with the backfill row by row is the backfill. */
  lemma PointwiseBackfilled(rows: seq<VideoRecord>, rs: seq<VideoRecord>, processAll: bool, dryRun: bool, version: Version)
    requires |rs| == |rows|
    requires forall k :: 0 <= k < |rs| ==> rs[k] == Backfilled(rows[k], processAll, dryRun, version)
    ensures rs == BackfilledAll(rows, processAll, dryRun, version)
  {
  }

  /** Saving the i-th row extends the backfilled prefix by one row. */
  lemma BackfillStep(rows: seq<VideoRecord>, rs: seq<VideoRecord>, processAll: bool, dryRun: bool, version: Version,
                     i: nat, w: VideoRecord)
    requires i < |rs| == |rows|
    requires forall k :: 0 <= k < i ==> rs[k] == Backfilled(rows[k], processAll, dryRun, version)
    requires forall k :: i <= k < |rs| ==> rs[k] == rows[k]
    requires w == Backfilled(rows[i], processAll, dryRun, version)
    ensures forall k :: 0 <= k < i + 1 ==> rs[i := w][k] == Backfilled(rows[k], processAll, dryRun, version)
    ensures forall k :: i + 1 <= k < |rs| ==> rs[i := w][k] == rows[k]
  {
  }

  /** One iteration of the command's loop: the row afterwards, whether it was
      selected, and whether an id was found for it. */
  method HandleRow(v: VideoRecord, processAll: bool, dryRun: bool, version: Version)
    returns (w: VideoRecord, selected: bool, found: bool)
    ensures w == Backfilled(v, processAll, dryRun, version)
    ensures selected == Selected(v, processAll) && found == Found(v, processAll, version)
  {
    w, selected, found := v, Selected(v, processAll), false;
    if selected {
      var id := ExtractYoutubeId(version, v.fileName);
      if id.Some? {
        found := true;
        if !dryRun {
          w := v.(youtubeUrl := Some(WatchPrefix + id.value));
        }
      }
    }
  }

  /** The Video table. */
  class VideoTable {
    var rows: seq<VideoRecord>

    constructor (initial: seq<VideoRecord>)
      ensures rows == initial
    {
      rows := initial;
    }

    /** Command.handle: the counters and the rows afterwards. */
    method Handle(dryRun: bool, processAll: bool, version: Version) returns (updated: nat, skipped: nat)
      modifies this
      ensures updated == FoundCount(old(rows), processAll, version, |old(rows)|)
      ensures updated + skipped == SelectedCount(old(rows), processAll, |old(rows)|)
      ensures rows == BackfilledAll(old(rows), processAll, dryRun, version)
    {
      var rows0 := rows;
      var rs := rows;
      updated, skipped := 0, 0;
      var i := 0;
      while i < |rs|
        invariant 0 <= i <= |rs| == |rows0|
        invariant forall k :: 0 <= k < i ==> rs[k] == Backfilled(rows0[k], processAll, dryRun, version)
        invariant forall k :: i <= k < |rs| ==> rs[k] == rows0[k]
        invariant updated == FoundCount(rows0, processAll, version, i)
        invariant updated + skipped == SelectedCount(rows0, processAll, i)
      {
        var w, selected, found := HandleRow(rows0[i], processAll, dryRun, version);
        assert FoundCount(rows0, processAll, version, i + 1) == FoundCount(rows0, processAll, version, i) + (if found then 1 else 0);
        assert SelectedCount(rows0, processAll, i + 1) == SelectedCount(rows0, processAll, i) + (if selected then 1 else 0);
        if selected {
          if found {
            updated := updated + 1;
          } else {
            skipped := skipped + 1;
          }
        }
        BackfillStep(rows0, rs, processAll, dryRun, version, i, w);
        rs := rs[i := w];
        i := i + 1;
      }
      PointwiseBackfilled(rows0, rs, processAll, dryRun, version);
      rows := rs;
    }
  }

  /** A dry run changes no row; without --all a row that already has a URL is
      never touched; a changed row gets the watch URL of its id. */
  lemma BackfillRules(rows: seq<VideoRecord>, processAll: bool, dryRun: bool, version: Version)
    ensures dryRun ==> BackfilledAll(rows, processAll, dryRun, version) == rows
    ensures forall i :: 0 <= i < |rows| && !processAll && rows[i].youtubeUrl.Some? && rows[i].youtubeUrl != Some("") ==>
      BackfilledAll(rows, processAll, dryRun, version)[i] == rows[i]
    ensures forall i :: 0 <= i < |rows| && BackfilledAll(rows, processAll, dryRun, version)[i] != rows[i] ==>
      ExtractBy(version, rows[i].fileName).Some?
      && BackfilledAll(rows, processAll, dryRun, version)[i].youtubeUrl == Some(WatchPrefix + ExtractBy(version, rows[i].fileName).value)
  {
  }

  /** Updated and skipped together count each selected video once; with
      --all every video is selected. */
  lemma {:induction false} CountsSplitSelection(rows: seq<VideoRecord>, processAll: bool, version: Version, n: nat)
    requires n <= |rows|
    ensures FoundCount(rows, processAll, version, n) <= SelectedCount(rows, processAll, n) <= n
    ensures processAll ==> SelectedCount(rows, processAll, n) == n
  {
    if n > 0 {
      CountsSplitSelection(rows, processAll, version, n - 1);
    }
  }

  /** The finding at the command's level: a selected row named
      "Title_ID.ext" whose id has an '_' is skipped by the command as written
      and gets its watch URL from the corrected one. */
  lemma CommandSkipsUnderscoreId(v: VideoRecord, processAll: bool, title: string, id: string, ext: string)
    requires Selected(v, processAll) && MissedShape(title, id, ext) && v.fileName == title + "_" + id + ext
    ensures !Found(v, processAll, AsWritten) && Backfilled(v, processAll, false, AsWritten) == v
    ensures Found(v, processAll, Corrected)
    ensures Backfilled(v, processAll, false, Corrected).youtubeUrl == Some(WatchPrefix + id)
  {
    UnderscoreIdMissedAsWritten(title, id, ext);
  }
}
