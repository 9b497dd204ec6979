/** String helpers shared by the backend (Python) and the frontend (JavaScript)
    models: whitespace stripping, ASCII case mapping, substring tests,
    single-character splitting, decimal rendering of integers and the
    posixpath basename/splitext rules. */
module Text {

  // ---------------------------------------------------------------------------
  // Whitespace

  /** The characters for which Python's str.isspace() holds; str.strip()
      with no argument removes exactly these. */
  const PyWhitespace: set<char> :=
    {'\t', '\n', '\U{B}', '\U{C}', '\r', '\U{1C}', '\U{1D}', '\U{1E}', '\U{1F}', ' ',
     '\U{85}', '\U{A0}', '\U{1680}',
     '\U{2000}', '\U{2001}', '\U{2002}', '\U{2003}', '\U{2004}', '\U{2005}',
     '\U{2006}', '\U{2007}', '\U{2008}', '\U{2009}', '\U{200A}',
     '\U{2028}', '\U{2029}', '\U{202F}', '\U{205F}', '\U{3000}'}

  /** The characters JavaScript's String.prototype.trim() removes and that the
      regular-expression class \s matches (WhiteSpace and LineTerminator). */
  const JsWhitespace: set<char> :=
    {'\t', '\n', '\U{B}', '\U{C}', '\r', ' ', '\U{A0}', '\U{1680}',
     '\U{2000}', '\U{2001}', '\U{2002}', '\U{2003}', '\U{2004}', '\U{2005}',
     '\U{2006}', '\U{2007}', '\U{2008}', '\U{2009}', '\U{200A}',
     '\U{2028}', '\U{2029}', '\U{202F}', '\U{205F}', '\U{3000}', '\U{FEFF}'}

  /** Every character of s is in ws (vacuously true of ""). */
  predicate AllIn(s: string, ws: set<char>) {
    forall k :: 0 <= k < |s| ==> s[k] in ws
  }

  /** s without its leading characters from ws. */
  function StripLeft(s: string, ws: set<char>): (r: string)
    ensures |r| <= |s| && r == s[|s| - |r|..]
    ensures AllIn(s[..|s| - |r|], ws)
    ensures r != [] ==> r[0] !in ws
    decreases |s|
  {
    if s != [] && s[0] in ws then StripLeft(s[1..], ws) else s
  }

  /** s without its trailing characters from ws. */
  function StripRight(s: string, ws: set<char>): (r: string)
    ensures |r| <= |s| && r == s[..|r|]
    ensures AllIn(s[|r|..], ws)
    ensures r != [] ==> r[|r| - 1] !in ws
    decreases |s|
  {
    if s != [] && s[|s| - 1] in ws then StripRight(s[..|s| - 1], ws) else s
  }

  /** Python's s.strip() (with ws = PyWhitespace) and JavaScript's s.trim()
      (with ws = JsWhitespace). */
  function Strip(s: string, ws: set<char>): string {
    StripRight(StripLeft(s, ws), ws)
  }

  /** A stripped string is empty exactly when every character was whitespace:
      this is the test `if not s.strip()` / `if (!s.trim())`. */
  lemma StripEmptyIffBlank(s: string, ws: set<char>)
    ensures Strip(s, ws) == [] <==> AllIn(s, ws)
  {
    var l := StripLeft(s, ws);
    if l == [] {
      assert s[..|s|] == s;
    } else {
      assert l[0] !in ws;
      assert s[|s| - |l|] == l[0];
    }
  }

  // ---------------------------------------------------------------------------
  // ASCII case mapping (the model's stand-in for str.lower and toUpperCase)

  function LowerChar(c: char): char {
    if 'A' <= c <= 'Z' then (c as int + 32) as char else c
  }

  function UpperChar(c: char): char {
    if 'a' <= c <= 'z' then (c as int - 32) as char else c
  }

  function Lower(s: string): (r: string)
    ensures |r| == |s| && forall k :: 0 <= k < |s| ==> r[k] == LowerChar(s[k])
  {
    if s == [] then [] else [LowerChar(s[0])] + Lower(s[1..])
  }

  function Upper(s: string): (r: string)
    ensures |r| == |s| && forall k :: 0 <= k < |s| ==> r[k] == UpperChar(s[k])
  {
    if s == [] then [] else [UpperChar(s[0])] + Upper(s[1..])
  }

  /** Lower-casing forgets an earlier upper-casing. */
  lemma LowerUpper(s: string)
    ensures Lower(Upper(s)) == Lower(s)
  {
    forall k | 0 <= k < |s| ensures Lower(Upper(s))[k] == Lower(s)[k] {
      var c := s[k];
      if 'a' <= c <= 'z' {
        assert UpperChar(c) as int == c as int - 32;
      }
    }
  }

  // ---------------------------------------------------------------------------
  // Prefixes, substrings, character search

  predicate StartsWith(s: string, p: string) {
    |p| <= |s| && s[..|p|] == p
  }

  predicate EndsWith(s: string, p: string) {
    |p| <= |s| && s[|s| - |p|..] == p
  }

  /** Lower-casing keeps a suffix a suffix. */
  lemma LowerEndsWith(s: string, p: string)
    requires EndsWith(s, p)
    ensures EndsWith(Lower(s), Lower(p))
  {
    var low := Lower(s);
    forall k | 0 <= k < |p| ensures low[|s| - |p| + k] == Lower(p)[k] {
      assert s[|s| - |p| + k] == s[|s| - |p|..][k];
    }
  }

  /** Python's `sub in s` and JavaScript's s.includes(sub). */
  predicate Contains(s: string, sub: string)
    decreases |s|
  {
    StartsWith(s, sub) || (s != [] && Contains(s[1..], sub))
  }

  /** Index of the first occurrence of c in s. */
  function IndexOf(s: string, c: char): (i: nat)
    requires c in s
    ensures i < |s| && s[i] == c && c !in s[..i]
  {
    if s[0] == c then 0 else 1 + IndexOf(s[1..], c)
  }

  /** Index of the last occurrence of c in s, or -1 (Python's rfind). */
  function LastIndexOf(s: string, c: char): (i: int)
    ensures -1 <= i < |s|
    ensures i >= 0 ==> s[i] == c
    ensures forall k :: i < k < |s| ==> s[k] != c
  {
    LastBefore(s, c, |s|)
  }

  /** Index of the last occurrence of c among the first n characters, or -1. */
  function LastBefore(s: string, c: char, n: nat): (i: int)
    requires n <= |s|
    ensures -1 <= i < n
    ensures i >= 0 ==> s[i] == c
    ensures forall k :: i < k < n ==> s[k] != c
  {
    if n == 0 then -1
    else if s[n - 1] == c then n - 1
    else LastBefore(s, c, n - 1)
  }

  /** rfind gives -1 when the character does not occur. */
  lemma LastIndexOfAbsent(s: string, c: char)
    requires c !in s
    ensures LastIndexOf(s, c) == -1
  {
  }

  /** The last occurrence is the one with no occurrence after it. */
  lemma LastIndexOfIs(s: string, c: char, i: nat)
    requires i < |s| && s[i] == c && c !in s[i + 1..]
    ensures LastIndexOf(s, c) == i
  {
    forall k | i < k < |s| ensures s[k] != c {
      assert s[k] == s[i + 1..][k - i - 1];
    }
  }

  /** The last occurrence in a concatenation lies in its second part when
      the second part has one. */
  lemma LastIndexOfConcat(a: string, b: string, c: char)
    ensures c in b ==> LastIndexOf(a + b, c) == |a| + LastIndexOf(b, c)
    ensures c !in b ==> LastIndexOf(a + b, c) == LastIndexOf(a, c)
  {
    var s := a + b;
    var m := LastIndexOf(b, c);
    if m >= 0 {
      assert s[|a| + m] == c;
      forall k | |a| + m < k < |s| ensures s[k] != c {
        assert s[k] == b[k - |a|];
      }
    } else {
      var n := LastIndexOf(a, c);
      forall k | n < k < |s| ensures s[k] != c {
        if k < |a| {
          assert s[k] == a[k];
        } else {
          assert s[k] == b[k - |a|];
        }
      }
      assert n >= 0 ==> s[n] == c;
    }
  }

  // ---------------------------------------------------------------------------
  // Splitting on one character (Python's s.split('_'), JavaScript's s.split(' '))

  /** The pieces of s between occurrences of sep, in order; "" gives [""]. */
  function Split(s: string, sep: char): (parts: seq<string>)
    ensures |parts| >= 1
    ensures forall p :: p in parts ==> sep !in p
    decreases |s|
  {
    if sep !in s then [s]
    else
      var i := IndexOf(s, sep);
      [s[..i]] + Split(s[i + 1..], sep)
  }

  /** The inverse of Split: the parts separated by sep. */
  function Join(parts: seq<string>, sep: char): string {
    if |parts| == 0 then ""
    else if |parts| == 1 then parts[0]
    else parts[0] + [sep] + Join(parts[1..], sep)
  }

  /** Joining the pieces gives back the original string. */
  lemma {:induction false} JoinSplit(s: string, sep: char)
    ensures Join(Split(s, sep), sep) == s
    decreases |s|
  {
    if sep in s {
      var i := IndexOf(s, sep);
      JoinSplit(s[i + 1..], sep);
      assert s == s[..i] + [sep] + s[i + 1..];
    }
  }

  /** A first piece without the separator splits off on its own. */
  lemma SplitFirst(a: string, b: string, sep: char)
    requires sep !in a
    ensures Split(a + [sep] + b, sep) == [a] + Split(b, sep)
  {
    var s := a + [sep] + b;
    assert s[|a|] == sep;
    var i := IndexOf(s, sep);
    assert i == |a| by {
      forall k | 0 <= k < |a| ensures s[k] != sep {
        assert s[k] == a[k];
      }
    }
    assert s[..i] == a;
    assert s[i + 1..] == b;
  }

  /** No piece is longer than the text, and when the separator occurs every
      piece is shorter. */
  lemma {:induction false} SplitPiecesShorter(s: string, sep: char)
    ensures forall p :: p in Split(s, sep) ==> |p| <= |s|
    ensures sep in s ==> forall p :: p in Split(s, sep) ==> |p| < |s|
    decreases |s|
  {
    if sep in s {
      var i := IndexOf(s, sep);
      SplitPiecesShorter(s[i + 1..], sep);
      assert Split(s, sep) == [s[..i]] + Split(s[i + 1..], sep);
    }
  }

  /** Splitting a join of separator-free parts gives back the parts. */
  lemma {:induction false} SplitJoin(parts: seq<string>, sep: char)
    requires |parts| >= 1
    requires forall p :: p in parts ==> sep !in p
    ensures Split(Join(parts, sep), sep) == parts
  {
    if |parts| > 1 {
      var rest := Join(parts[1..], sep);
      var s := parts[0] + [sep] + rest;
      assert sep !in parts[0] by { assert parts[0] in parts; }
      assert s[|parts[0]|] == sep;
      assert sep in s;
      var i := IndexOf(s, sep);
      assert i == |parts[0]|;
      assert s[..i] == parts[0];
      assert s[i + 1..] == rest;
      SplitJoin(parts[1..], sep);
    }
  }

  // ---------------------------------------------------------------------------
  // Decimal rendering of integers (Python's str(int), JavaScript's String(n)
  // for integral numbers)

  predicate IsDigit(c: char) {
    '0' <= c <= '9'
  }

  predicate AllDigits(s: string) {
    forall k :: 0 <= k < |s| ==> IsDigit(s[k])
  }

  function DigitChar(d: nat): (c: char)
    requires d < 10
    ensures IsDigit(c)
  {
    (48 + d) as char
  }

  function DigitValue(c: char): nat
    requires IsDigit(c)
  {
    c as int - 48
  }

  /** The value of a string of decimal digits. */
  function DigitsValue(s: string): nat
    requires AllDigits(s)
  {
    if s == [] then 0 else 10 * DigitsValue(s[..|s| - 1]) + DigitValue(s[|s| - 1])
  }

  /** The shortest decimal numeral of n. */
  function NatToString(n: nat): (s: string)
    ensures |s| >= 1 && AllDigits(s)
    ensures |s| > 1 ==> s[0] != '0'
  {
    if n < 10 then [DigitChar(n)] else NatToString(n / 10) + [DigitChar(n % 10)]
  }

  /** The numeral NatToString(n) reads back as n. */
  lemma {:induction false} NatToStringValue(n: nat)
    ensures DigitsValue(NatToString(n)) == n
  {
    if n >= 10 {
      var s := NatToString(n);
      assert s[..|s| - 1] == NatToString(n / 10);
      NatToStringValue(n / 10);
    }
  }

  /** The numeral of an integer, with a leading '-' when it is negative. */
  function IntToString(i: int): (s: string)
    ensures s != []
    ensures i < 0 <==> s[0] == '-'
  {
    if i < 0 then "-" + NatToString(-i) else NatToString(i)
  }

  // ---------------------------------------------------------------------------
  // posixpath.basename and posixpath.splitext

  /** The part of a path after its last '/'. */
  function Basename(p: string): (b: string)
    ensures '/' !in b
    ensures EndsWith(p, b)
  {
    p[LastIndexOf(p, '/') + 1..]
  }

  /** Python's os.path.splitext on a POSIX path: the extension starts at the
      last '.' of the last path component, provided that component has a
      character other than '.' before it; otherwise the extension is "". */
  function SplitExt(p: string): (r: (string, string))
    ensures r.0 + r.1 == p
    ensures r.1 == [] || (r.1[0] == '.' && '.' !in r.1[1..] && '/' !in r.1)
  {
    var slash := LastIndexOf(p, '/');
    var dot := LastIndexOf(p, '.');
    if dot > slash && exists k :: slash < k < dot && p[k] != '.' then
      var ext := p[dot..];
      assert '.' !in ext[1..] && '/' !in ext by {
        forall k | 0 <= k < |ext| ensures ext[k] == p[dot + k] {
        }
      }
      (p[..dot], ext)
    else
      (p, "")
  }
}
