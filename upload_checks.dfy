/** The request checks of backend/api/views.py that decide whether an upload
    may proceed: the size and extension rule (_validate_video_file), the
    missing-file guard of perform_create, the YouTube host test
    (_is_youtube_url) and the reading of a yt-dlp progress value
    (_parse_progress_percent). */
module UploadChecks {
  import opened Outcomes
  import opened Text
  import opened Numeric

  // ---------------------------------------------------------------------------
  // _validate_video_file

  /** 500 MB, the largest accepted file. */
  const MaxSize: int := 500 * 1024 * 1024

  const AllowedExtensions: seq<string> := [".mp4", ".mov", ".avi", ".mkv", ".webm"]

  const TooLargeMessage: string := "File too large. Max size is 500MB"
  const BadTypeMessage: string := "Invalid file type. Allowed: .mp4, .mov, .avi, .mkv, .webm"

  /** The ValueError message raised for a file, or None when it is accepted.
      The size is checked before the extension; the extension is that of
      os.path.splitext, lower-cased. */
  function ValidateVideoFile(fileName: string, fileSize: int): (r: Option<string>)
    ensures fileSize > MaxSize ==> r == Some(TooLargeMessage)
    ensures fileSize <= MaxSize ==>
      (r.None? <==> Lower(SplitExt(fileName).1) in AllowedExtensions)
    ensures fileSize <= MaxSize && r.Some? ==> r == Some(BadTypeMessage)
  {
    if fileSize > MaxSize then Some(TooLargeMessage)
    else if Lower(SplitExt(fileName).1) !in AllowedExtensions then Some(BadTypeMessage)
    else None
  }

  /** An accepted name ends, ignoring ASCII case, with one of the allowed
      extensions, and its size is at most 500 MB. */
  lemma AcceptedNameHasAllowedSuffix(fileName: string, fileSize: int)
    requires ValidateVideoFile(fileName, fileSize).None?
    ensures fileSize <= MaxSize
    ensures exists e :: e in AllowedExtensions && EndsWith(Lower(fileName), e)
  {
    var (root, ext) := SplitExt(fileName);
    assert fileName[|root|..] == ext;
    LowerEndsWith(fileName, ext);
    assert Lower(ext) in AllowedExtensions;
  }

  /** The size bound is inclusive: exactly 500 MB is not too large. */
  lemma SizeBoundIsInclusive(fileName: string)
    ensures ValidateVideoFile(fileName, MaxSize) != Some(TooLargeMessage)
    ensures ValidateVideoFile(fileName, MaxSize + 1) == Some(TooLargeMessage)
  {
  }

  /** The extension test ignores the directory part and the case of the
      name: "clips/Talk.MP4" is accepted. */
  lemma UpperCaseExtensionAccepted()
    ensures ValidateVideoFile("clips/Talk.MP4", 10) == None
  {
    var p := "clips/Talk.MP4";
    LastIndexOfIs(p, '/', 5);
    LastIndexOfIs(p, '.', 10);
    assert p[6] != '.';
    assert SplitExt(p).1 == ".MP4";
    assert Lower(".MP4") == ".mp4";
  }

  /** An uploaded file as the multipart parser hands it over. */
  datatype UploadedFile = UploadedFile(name: string, size: int)

  /** perform_create's checks: no file part raises "No file provided"; a file
      is then validated. */
  function CreateError(file: Option<UploadedFile>): (r: Option<string>)
    ensures file.None? ==> r == Some("No file provided")
    ensures file.Some? ==> r == ValidateVideoFile(file.value.name, file.value.size)
  {
    if file.None? then Some("No file provided") else ValidateVideoFile(file.value.name, file.value.size)
  }

  // ---------------------------------------------------------------------------
  // _is_youtube_url

  /** `netloc` is the network location urlparse finds in the URL, or None when
      urlparse raises (then the URL is not a YouTube URL). */
  predicate IsYoutubeUrl(netloc: Option<string>) {
    netloc.Some? && (Contains(Lower(netloc.value), "youtube.com") || Contains(Lower(netloc.value), "youtu.be"))
  }

  /** A substring is never longer than the string holding it. */
  lemma {:induction false} ContainsNotLonger(s: string, sub: string)
    requires Contains(s, sub)
    ensures |sub| <= |s|
    decreases |s|
  {
    if !StartsWith(s, sub) {
      ContainsNotLonger(s[1..], sub);
    }
  }

  /** Contains sees every occurrence: a string with sub at position i contains it. */
  lemma {:induction false} ContainsAt(s: string, sub: string, i: nat)
    requires i + |sub| <= |s| && s[i..i + |sub|] == sub
    ensures Contains(s, sub)
    decreases i
  {
    if i > 0 {
      assert s[1..][i - 1..i - 1 + |sub|] == sub;
      ContainsAt(s[1..], sub, i - 1);
    }
  }

  /** The host test ignores ASCII case. */
  lemma YoutubeHostIgnoresCase(host: string)
    ensures IsYoutubeUrl(Some(Upper(host))) == IsYoutubeUrl(Some(host))
  {
    LowerUpper(host);
  }

  /** An empty host (a relative URL) and an unparsable URL are refused. */
  lemma EmptyHostRefused()
    ensures !IsYoutubeUrl(Some("")) && !IsYoutubeUrl(None)
  {
    if Contains("", "youtube.com") { ContainsNotLonger("", "youtube.com"); }
    if Contains("", "youtu.be") { ContainsNotLonger("", "youtu.be"); }
  }

  /** No ASCII capital occurs in the text. */
  predicate NoUpper(s: string) {
    forall k :: 0 <= k < |s| ==> !('A' <= s[k] <= 'Z')
  }

  lemma LoweredHasNoUpper(s: string)
    ensures NoUpper(Lower(s))
  {
  }

  /** Any subdomain of youtube.com is accepted ("m.youtube.com", "www.youtube.com"). */
  lemma SubdomainAccepted(prefix: string)
    ensures IsYoutubeUrl(Some(Lower(prefix) + "youtube.com"))
  {
    var a := Lower(prefix);
    LoweredHasNoUpper(prefix);
    SuffixContained(a, "youtube.com");
  }

  /** A lower-case text ending in a lower-case suffix contains that suffix after lower-casing. */
  lemma SuffixContained(a: string, y: string)
    requires NoUpper(a) && y == "youtube.com"
    ensures Contains(Lower(a + y), y)
  {
    YoutubeHasNoUpper(y);
    LowerOfNoUpper(a, y);
    MiddleSlice(a, y);
    ContainsAt(a + y, y, |a|);
  }

  lemma YoutubeHasNoUpper(y: string)
    requires y == "youtube.com"
    ensures NoUpper(y)
  {
    forall k | 0 <= k < |y| ensures !('A' <= y[k] <= 'Z') {
      assert y[k] in "youtube.com";
    }
  }

  /** Lower-casing leaves text without capitals as it is. */
  lemma LowerOfNoUpper(a: string, b: string)
    requires NoUpper(a) && NoUpper(b)
    ensures Lower(a + b) == a + b
  {
    var t := a + b;
    forall k | 0 <= k < |t| ensures Lower(t)[k] == t[k] {
      if k < |a| {
        assert t[k] == a[k];
      } else {
        assert t[k] == b[k - |a|];
      }
    }
  }

  lemma MiddleSlice(a: string, b: string)
    ensures (a + b)[|a|..|a| + |b|] == b
  {
  }

  // ---------------------------------------------------------------------------
  // _parse_progress_percent

  /** The value yt-dlp reports: absent, a number, or a text such as " 42.5%". */
  datatype ProgressValue = NoValue | Number(x: real) | Text(s: string)

  function Clamp(i: int): (c: int)
    ensures 0 <= c <= 100
    ensures 0 <= i <= 100 ==> c == i
  {
    if i < 0 then 0 else if i > 100 then 100 else i
  }

  /** The end of the run of ASCII digits that starts at i. */
  function DigitRunEnd(s: string, i: nat): (j: nat)
    requires i <= |s|
    ensures i <= j <= |s| && AllDigits(s[i..j])
    ensures j < |s| ==> !IsDigit(s[j])
    decreases |s| - i
  {
    if i < |s| && IsDigit(s[i]) then
      var j := DigitRunEnd(s, i + 1);
      assert s[i..j] == [s[i]] + s[i + 1..j];
      j
    else i
  }

  /** Whether the pattern (\d+(?:\.\d+)?)% matches at position i, and if so
      the integer part of the matched number. Greedy \d+ must take the whole
      digit run (a shorter run is followed by a digit, not by '.' or '%'),
      and so must the fraction's \d+. */
  function MatchAt(s: string, i: nat): (r: Option<nat>)
    requires i <= |s|
    ensures r.Some? ==> i < |s| && IsDigit(s[i])
  {
    if i == |s| || !IsDigit(s[i]) then None
    else
      var j := DigitRunEnd(s, i);
      if j < |s| && s[j] == '%' then Some(DigitsValue(s[i..j]))
      else if j + 1 < |s| && s[j] == '.' && IsDigit(s[j + 1]) then
        var k := DigitRunEnd(s, j + 1);
        if k < |s| && s[k] == '%' then Some(DigitsValue(s[i..j])) else None
      else None
  }

  /** re.search: the match at the leftmost position from `from` on. */
  function Search(s: string, from: nat): (r: Option<(nat, nat)>)
    requires from <= |s|
    ensures r.Some? ==> from <= r.value.0 < |s| && MatchAt(s, r.value.0) == Some(r.value.1)
    ensures r.Some? ==> forall i :: from <= i < r.value.0 ==> MatchAt(s, i).None?
    ensures r.None? ==> forall i :: from <= i <= |s| ==> MatchAt(s, i).None?
    decreases |s| - from
  {
    if from == |s| then None
    else if MatchAt(s, from).Some? then Some((from, MatchAt(s, from).value))
    else Search(s, from + 1)
  }

  /** The progress as a whole percent clamped to 0..100, or None. */
  function ParseProgressPercent(v: ProgressValue): (r: Option<int>)
    ensures v.NoValue? ==> r.None?
    ensures v.Number? ==> r == Some(Clamp(Truncate(v.x)))
    ensures v.Text? ==> (r.None? <==> forall i :: 0 <= i <= |v.s| ==> MatchAt(v.s, i).None?)
    ensures r.Some? ==> 0 <= r.value <= 100
  {
    match v
    case NoValue => None
    case Number(x) => Some(Clamp(Truncate(x)))
    case Text(s) =>
      var m := Search(s, 0);
      if m.None? then None else Some(Clamp(m.value.1))
  }

  /** The text of a whole percent reads back as that percent, up to 100. */
  lemma {:induction false} PercentTextRoundTrip(n: nat)
    ensures ParseProgressPercent(Text(NatToString(n) + "%")) == Some(if n <= 100 then n else 100)
  {
    var d := NatToString(n);
    var s := d + "%";
    assert s[..|d|] == d;
    RunEndOfDigits(s, |d|);
    NatToStringValue(n);
    assert MatchAt(s, 0) == Some(n);
  }

  /** A digit prefix of length m followed by a non-digit is one run. */
  lemma {:induction false} RunEndOfDigits(s: string, m: nat)
    requires 0 < m < |s| && AllDigits(s[..m]) && !IsDigit(s[m])
    ensures DigitRunEnd(s, 0) == m
  {
    RunEndFrom(s, 0, m);
  }

  lemma {:induction false} RunEndFrom(s: string, i: nat, m: nat)
    requires i <= m < |s| && AllDigits(s[..m]) && !IsDigit(s[m])
    ensures DigitRunEnd(s, i) == m
    decreases m - i
  {
    if i < m {
      assert IsDigit(s[..m][i]);
      RunEndFrom(s, i + 1, m);
    }
  }

  /** Text without the '%' sign never gives a percent: every match ends in '%'. */
  lemma {:induction false} NoPercentSignNoValue(s: string)
    requires '%' !in s
    ensures ParseProgressPercent(Text(s)).None?
  {
    forall i | 0 <= i <= |s| ensures MatchAt(s, i).None? {
      if i < |s| && IsDigit(s[i]) {
        var j := DigitRunEnd(s, i);
        if j + 1 < |s| && s[j] == '.' && IsDigit(s[j + 1]) {
          var k := DigitRunEnd(s, j + 1);
          assert k < |s| ==> s[k] != '%';
        }
        assert j < |s| ==> s[j] != '%';
      }
    }
  }
}
