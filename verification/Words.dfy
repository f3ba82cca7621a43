/** Words and white space, as Go's strings.TrimSpace, strings.Fields and strings.Join see them.

    White space is what unicode.IsSpace calls so. Fields are the longest stretches without any; joining
    them again leaves one space between each two. */
module Words {
  predicate IsSpace(c: char) {
    || '\t' <= c <= '\r' || c == ' ' || c == '\U{85}' || c == '\U{A0}' || c == '\U{1680}'
    || '\U{2000}' <= c <= '\U{200A}' || c == '\U{2028}' || c == '\U{2029}' || c == '\U{202F}'
    || c == '\U{205F}' || c == '\U{3000}'
  }

  /** The white space characters, one by one. */
  lemma SpacesAre(c: char)
    ensures IsSpace(c) <==>
            c in {'\t', '\n', '\U{B}', '\U{C}', '\r', ' ', '\U{85}', '\U{A0}', '\U{1680}', '\U{2000}', '\U{2001}',
                  '\U{2002}', '\U{2003}', '\U{2004}', '\U{2005}', '\U{2006}', '\U{2007}', '\U{2008}', '\U{2009}',
                  '\U{200A}', '\U{2028}', '\U{2029}', '\U{202F}', '\U{205F}', '\U{3000}'}
  {
  }

  function SkipSpaces(s: string): (r: string)
    ensures |r| <= |s| && (r != "" ==> !IsSpace(r[0]))
  {
    if s == "" || !IsSpace(s[0]) then s else SkipSpaces(s[1..])
  }

  function DropTrailing(s: string): string {
    if s == "" || !IsSpace(s[|s| - 1]) then s else DropTrailing(s[..|s| - 1])
  }

  function TrimSpace(s: string): string {
    DropTrailing(SkipSpaces(s))
  }

  /** The length of the leading run of non-spaces. */
  function WordLength(s: string): (n: nat)
    ensures n <= |s| && (s != "" && !IsSpace(s[0]) ==> n > 0)
    ensures forall i :: 0 <= i < n ==> !IsSpace(s[i])
    ensures n < |s| ==> IsSpace(s[n])
  {
    if s == "" || IsSpace(s[0]) then 0 else 1 + WordLength(s[1..])
  }

  function Fields(s: string): seq<string>
    decreases |s|
  {
    var t := SkipSpaces(s);
    if t == "" then [] else [t[..WordLength(t)]] + Fields(t[WordLength(t)..])
  }

  function Join(parts: seq<string>): string {
    if parts == [] then ""
    else if |parts| == 1 then parts[0]
    else parts[0] + " " + Join(parts[1..])
  }

  ghost predicate IsWord(s: string) {
    s != "" && forall i :: 0 <= i < |s| ==> !IsSpace(s[i])
  }

  /** Trimmed and single-spaced: each space is a blank between two words. */
  ghost predicate Tidy(s: string) {
    forall i :: 0 <= i < |s| && IsSpace(s[i]) ==> s[i] == ' ' && 0 < i < |s| - 1 && !IsSpace(s[i + 1])
  }

  lemma {:induction false} FieldsAreWords(s: string)
    ensures forall i :: 0 <= i < |Fields(s)| ==> IsWord(Fields(s)[i])
    decreases |s|
  {
    var t := SkipSpaces(s);
    if t != "" {
      FieldsAreWords(t[WordLength(t)..]);
    }
  }

  lemma {:induction false} JoinIsTidy(parts: seq<string>)
    requires forall i :: 0 <= i < |parts| ==> IsWord(parts[i])
    ensures Tidy(Join(parts)) && (parts != [] ==> Join(parts) != "" && !IsSpace(Join(parts)[0]))
  {
    if |parts| > 1 {
      JoinIsTidy(parts[1..]);
      var w, rest := parts[0], Join(parts[1..]);
      var s := w + " " + rest;
      assert forall i :: 0 <= i < |w| ==> s[i] == w[i];
      assert forall i :: |w| < i < |s| ==> s[i] == rest[i - |w| - 1];
    }
  }

  lemma {:induction false} WordLengthExact(w: string, rest: string)
    requires IsWord(w) && (rest == "" || IsSpace(rest[0]))
    ensures WordLength(w + rest) == |w|
  {
    var s := w + rest;
    assert s[1..] == w[1..] + rest;
    if |w| > 1 {
      WordLengthExact(w[1..], rest);
    } else {
      assert w[1..] + rest == rest;
    }
  }

  /** What a word followed by a blank and a tidy rest splits into. */
  lemma FieldsOfWordAndRest(w: string, rest: string)
    requires IsWord(w)
    ensures Fields(w) == [w]
    ensures Fields(w + " " + rest) == [w] + Fields(rest)
  {
    WordLengthExact(w, "");
    assert w + "" == w && w[|w|..] == "";
    var s := w + " " + rest;
    WordLengthExact(w, " " + rest);
    assert s == w + (" " + rest);
    assert s[..|w|] == w && s[|w|..] == " " + rest;
    assert (" " + rest)[1..] == rest;
    assert SkipSpaces(" " + rest) == SkipSpaces(rest);
  }

  /** Joining the fields of a string gives the string back exactly when it is tidy. */
  lemma {:induction false} JoinOfFieldsIffTidy(s: string)
    ensures Join(Fields(s)) == s <==> Tidy(s)
    decreases |s|
  {
    FieldsAreWords(s);
    JoinIsTidy(Fields(s));
    if s != "" && Tidy(s) {
      var n := WordLength(s);
      var w := s[..n];
      if n == |s| {
        assert s == w;
        FieldsOfWordAndRest(s, "");
      } else {
        var rest := s[n + 1..];
        assert s == w + " " + rest;
        assert rest != "";
        assert forall i :: 0 <= i < |rest| ==> rest[i] == s[n + 1 + i];
        assert Tidy(rest);
        FieldsOfWordAndRest(w, rest);
        JoinOfFieldsIffTidy(rest);
        assert ([w] + Fields(rest))[1..] == Fields(rest);
        assert Fields(rest) != [];
      }
    }
  }

  /** A string with no space at either end is already trimmed. */
  lemma TrimmedAlready(s: string)
    requires s == "" || (!IsSpace(s[0]) && !IsSpace(s[|s| - 1]))
    ensures TrimSpace(s) == s
  {
  }

  /** The string with its white space made tidy. */
  function Tidied(s: string): string {
    Join(Fields(s))
  }

  lemma {:induction false} SkipThenSpace(s: string, c: char)
    requires IsSpace(c)
    ensures SkipSpaces(s + [c]) == if SkipSpaces(s) == "" then "" else SkipSpaces(s) + [c]
  {
    if s == "" {
      assert s + [c] == [c] && [c][1..] == "";
    } else {
      assert (s + [c])[1..] == s[1..] + [c];
      if IsSpace(s[0]) {
        SkipThenSpace(s[1..], c);
      }
    }
  }

  lemma {:induction false} WordThenSpace(s: string, c: char)
    requires IsSpace(c)
    ensures WordLength(s + [c]) == WordLength(s)
  {
    if s == "" {
      assert s + [c] == [c];
    } else {
      assert (s + [c])[1..] == s[1..] + [c];
      if !IsSpace(s[0]) {
        WordThenSpace(s[1..], c);
      }
    }
  }

  lemma {:induction false} FieldsIgnoreTrailing(s: string, c: char)
    requires IsSpace(c)
    ensures Fields(s + [c]) == Fields(s)
    decreases |s|
  {
    SkipThenSpace(s, c);
    var t := SkipSpaces(s);
    if t != "" {
      WordThenSpace(t, c);
      var n := WordLength(t);
      assert (t + [c])[..n] == t[..n] && (t + [c])[n..] == t[n..] + [c];
      FieldsIgnoreTrailing(t[n..], c);
      assert SkipSpaces(t + [c]) == t + [c];
    }
  }

  lemma {:induction false} FieldsOfTrimmed(s: string)
    ensures Fields(DropTrailing(s)) == Fields(s)
    ensures DropTrailing(s) <= s
    ensures s != "" && !IsSpace(s[0]) ==> DropTrailing(s) != "" && DropTrailing(s)[0] == s[0]
  {
    if s != "" && IsSpace(s[|s| - 1]) {
      var n := |s| - 1;
      assert s == s[..n] + [s[n]];
      FieldsIgnoreTrailing(s[..n], s[n]);
      FieldsOfTrimmed(s[..n]);
    }
  }
}
