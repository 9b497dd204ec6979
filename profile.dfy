/** getInitials of frontend/src/pages/Profile.jsx: the name split on single
    spaces, the first character of each piece (an empty piece gives
    undefined, which join renders as nothing), joined and upper-cased. */
module Profile {
  import opened Text

  /** `pieces.map(n => n[0]).join('')`. */
  function Firsts(pieces: seq<string>): (r: string)
    ensures |r| <= |pieces|
  {
    if pieces == [] then ""
    else (if pieces[0] == "" then "" else [pieces[0][0]]) + Firsts(pieces[1..])
  }

  function Initials(name: string): string {
    Upper(Firsts(Split(name, ' ')))
  }

  lemma {:induction false} FirstsConcat(a: seq<string>, b: seq<string>)
    ensures Firsts(a + b) == Firsts(a) + Firsts(b)
    decreases |a|
  {
    if a != [] {
      assert (a + b)[1..] == a[1..] + b;
      FirstsConcat(a[1..], b);
    } else {
      assert a + b == b;
    }
  }

  lemma UpperConcat(a: string, b: string)
    ensures Upper(a + b) == Upper(a) + Upper(b)
  {
    assert forall k :: 0 <= k < |a + b| ==> Upper(a + b)[k] == (Upper(a) + Upper(b))[k];
  }

  /** An empty name, or one of spaces only, has no initials. */
  lemma {:induction false} NoWordsNoInitials(name: string)
    requires forall k :: 0 <= k < |name| ==> name[k] == ' '
    ensures Initials(name) == ""
    decreases |name|
  {
    if name != [] {
      SplitFirst("", name[1..], ' ');
      assert name == "" + [' '] + name[1..];
      NoWordsNoInitials(name[1..]);
    }
  }

  /** A single word gives its upper-cased first character. */
  lemma OneWord(w: string)
    requires w != "" && ' ' !in w
    ensures Initials(w) == [UpperChar(w[0])]
  {
    assert Split(w, ' ') == [w];
    assert Firsts([w]) == [w[0]] + Firsts([]);
  }

  /** A word followed by a space and the rest of the name contributes its
      first character ahead of the rest's initials; a leading or repeated
      space contributes nothing. */
  lemma WordThenRest(w: string, rest: string)
    requires ' ' !in w
    ensures Initials(w + " " + rest) == (if w == "" then "" else [UpperChar(w[0])]) + Initials(rest)
  {
    SplitFirst(w, rest, ' ');
    assert w + " " + rest == w + [' '] + rest;
    assert Firsts([w] + Split(rest, ' ')) == (if w == "" then "" else [w[0]]) + Firsts(Split(rest, ' ')) by {
      assert ([w] + Split(rest, ' '))[1..] == Split(rest, ' ');
    }
    UpperConcat(if w == "" then "" else [w[0]], Firsts(Split(rest, ' ')));
  }

  /** The initials of words joined by single spaces: one upper-cased first
      character per nonempty word, in the words' order. */
  lemma {:induction false} InitialsOfWords(words: seq<string>)
    requires |words| >= 1
    requires forall w :: w in words ==> ' ' !in w
    ensures Initials(Join(words, ' ')) == Upper(Firsts(words))
  {
    SplitJoin(words, ' ');
  }

  /** With no empty word, there is one initial per word: the k-th is the
      k-th word's first character. */
  lemma {:induction false} FirstsOfWords(words: seq<string>)
    requires forall k :: 0 <= k < |words| ==> words[k] != ""
    ensures |Firsts(words)| == |words|
    ensures forall k :: 0 <= k < |words| ==> Firsts(words)[k] == words[k][0]
    decreases |words|
  {
    if words != [] {
      FirstsOfWords(words[1..]);
      assert Firsts(words) == [words[0][0]] + Firsts(words[1..]);
    }
  }

  /** The initials are already upper-case: upper-casing them again changes
      nothing. */
  lemma InitialsUpperCase(name: string)
    ensures Upper(Initials(name)) == Initials(name)
  {
    var s := Initials(name);
    forall k | 0 <= k < |s| ensures Upper(s)[k] == s[k] {
      var c := Firsts(Split(name, ' '))[k];
      assert s[k] == UpperChar(c);
    }
  }
}
