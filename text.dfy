/** The string handling the dataset relies on: the lines of the image-list file, Python's
    `str.strip()`, and the split of a file name at its last '.'. */
module Text {

  function Concat(ls: seq<string>): string {
    if ls == [] then [] else ls[0] + Concat(ls[1..])
  }

  function CountOf(s: string, c: char): nat {
    if s == [] then 0 else (if s[0] == c then 1 else 0) + CountOf(s[1..], c)
  }

  /** Position of the first occurrence of c in s, or -1. */
  function IndexOf(s: string, c: char): (i: int)
    ensures -1 <= i < |s|
    ensures i >= 0 ==> s[i] == c
    ensures forall j | 0 <= j < |s| && (i < 0 || j < i) :: s[j] != c
  {
    if s == [] then -1
    else if s[0] == c then 0
    else
      var k := IndexOf(s[1..], c);
      if k < 0 then -1 else k + 1
  }

  /** Position of the last occurrence of c in s, or -1. */
  function LastIndexOf(s: string, c: char): (i: int)
    ensures -1 <= i < |s|
    ensures i >= 0 ==> s[i] == c
    ensures forall j | i < j < |s| :: s[j] != c
  {
    if s == [] then -1
    else if s[|s| - 1] == c then |s| - 1
    else LastIndexOf(s[..|s| - 1], c)
  }

  /** The lines that iterating over a text file yields, given the file's text after Python's
      newline translation (a '\r' or "\r\n" in the file is already a '\n' here): each runs up
      to and including a '\n', and a last line without '\n' is yielded too. */
  function Lines(text: string): (ls: seq<string>)
    decreases |text|
  {
    if text == [] then []
    else
      var i := IndexOf(text, '\n');
      if i < 0 then [text] else [text[..i + 1]] + Lines(text[i + 1..])
  }

  /** A well-formed line: non-empty, and a '\n' can only be its last character. */
  predicate IsLine(l: string) {
    l != [] && forall j | 0 <= j < |l| - 1 :: l[j] != '\n'
  }

  /** The lines put back together are the file, and each of them is a well-formed line. */
  lemma LinesPartitionText(text: string)
    ensures Concat(Lines(text)) == text
    ensures forall k | 0 <= k < |Lines(text)| :: IsLine(Lines(text)[k])
  {
    LinesConcat(text);
    LinesWellFormed(text);
  }

  lemma {:induction false} LinesConcat(text: string)
    ensures Concat(Lines(text)) == text
    decreases |text|
  {
    if text != [] {
      var i := IndexOf(text, '\n');
      var ls := Lines(text);
      if i < 0 {
        assert ls == [text] && ls[1..] == [];
      } else {
        var head, rest := text[..i + 1], Lines(text[i + 1..]);
        LinesConcat(text[i + 1..]);
        assert ls[1..] == rest;
        assert head + text[i + 1..] == text;
      }
    }
  }

  lemma {:induction false} LinesWellFormed(text: string)
    ensures forall k | 0 <= k < |Lines(text)| :: IsLine(Lines(text)[k])
    decreases |text|
  {
    if text != [] {
      var i := IndexOf(text, '\n');
      if i >= 0 {
        var ls, rest := Lines(text), Lines(text[i + 1..]);
        LinesWellFormed(text[i + 1..]);
        forall k | 0 <= k < |ls|
          ensures IsLine(ls[k])
        {
          if k > 0 {
            assert ls[k] == rest[k - 1];
          }
        }
      }
    }
  }

  /** There is one line per '\n', plus one for a last line that has no '\n'. */
  lemma {:induction false} LineCount(text: string)
    ensures |Lines(text)| == CountOf(text, '\n') + (if text != [] && text[|text| - 1] != '\n' then 1 else 0)
    decreases |text|
  {
    if text != [] {
      var i := IndexOf(text, '\n');
      if i < 0 {
        NoOccurrence(text, '\n');
      } else {
        LineCount(text[i + 1..]);
        CountSplit(text[..i + 1], text[i + 1..], '\n');
        assert text[..i + 1] + text[i + 1..] == text;
        CountSplit(text[..i], [text[i]], '\n');
        assert text[..i] + [text[i]] == text[..i + 1];
        NoOccurrence(text[..i], '\n');
        if text[i + 1..] != [] {
          assert text[|text| - 1] == text[i + 1..][|text[i + 1..]| - 1];
        }
      }
    }
  }

  lemma {:induction false} CountSplit(a: string, b: string, c: char)
    ensures CountOf(a + b, c) == CountOf(a, c) + CountOf(b, c)
    decreases |a|
  {
    if a != [] {
      assert (a + b)[0] == a[0];
      assert (a + b)[1..] == a[1..] + b;
      CountSplit(a[1..], b, c);
    } else {
      assert a + b == b;
    }
  }

  lemma {:induction false} NoOccurrence(s: string, c: char)
    requires forall j | 0 <= j < |s| :: s[j] != c
    ensures CountOf(s, c) == 0
    decreases |s|
  {
    if s != [] {
      NoOccurrence(s[1..], c);
    }
  }

  /** The characters Python's `str.isspace()` accepts. */
  predicate IsSpace(c: char) {
    || c == ' ' || '\t' <= c <= '\r' || '\U{1C}' <= c <= '\U{1F}' || c == '\U{85}' || c == '\U{A0}'
    || c == '\U{1680}' || '\U{2000}' <= c <= '\U{200A}' || c == '\U{2028}' || c == '\U{2029}'
    || c == '\U{202F}' || c == '\U{205F}' || c == '\U{3000}'
  }

  /** `s.lstrip()`: drops the leading whitespace and keeps the rest. */
  function StripLeft(s: string): (r: string)
    ensures |r| <= |s| && r == s[|s| - |r|..]
    ensures forall j | 0 <= j < |s| - |r| :: IsSpace(s[j])
    ensures r != [] ==> !IsSpace(r[0])
  {
    if s != [] && IsSpace(s[0]) then StripLeft(s[1..]) else s
  }

  /** `s.rstrip()`: drops the trailing whitespace and keeps the rest. */
  function StripRight(s: string): (r: string)
    ensures |r| <= |s| && r == s[..|r|]
    ensures forall j | |r| <= j < |s| :: IsSpace(s[j])
    ensures r != [] ==> !IsSpace(r[|r| - 1])
  {
    if s != [] && IsSpace(s[|s| - 1]) then StripRight(s[..|s| - 1]) else s
  }

  /** `s.strip()`: the part of s between its leading and its trailing whitespace. */
  function Strip(s: string): (r: string)
  {
    StripRight(StripLeft(s))
  }

  /** Strip keeps a contiguous part of s and cuts only whitespace, and none is left at either
      end of what it keeps. */
  lemma StripCharacterised(s: string)
    ensures var r := Strip(s); var a := |s| - |StripLeft(s)|;
      && a + |r| <= |s| && r == s[a..a + |r|]
      && (forall j | 0 <= j < a :: IsSpace(s[j]))
      && (forall j | a + |r| <= j < |s| :: IsSpace(s[j]))
    ensures Strip(s) != [] ==> !IsSpace(Strip(s)[0]) && !IsSpace(Strip(s)[|Strip(s)| - 1])
  {
    StripIsSlice(s);
    TrailingSpace(s, |s| - |StripLeft(s)|, |Strip(s)|);
    StripEndsInNonSpace(s);
  }

  lemma StripIsSlice(s: string)
    ensures var r := Strip(s); var a := |s| - |StripLeft(s)|; a + |r| <= |s| && r == s[a..a + |r|]
  {
    var l := StripLeft(s);
    var r := StripRight(l);
    var a := |s| - |l|;
    assert l == s[a..] && r == l[..|r|];
    PrefixOfSuffix(s, a, |r|);
  }

  lemma StripEndsInNonSpace(s: string)
    ensures Strip(s) != [] ==> !IsSpace(Strip(s)[0]) && !IsSpace(Strip(s)[|Strip(s)| - 1])
  {
    var l := StripLeft(s);
    var r := StripRight(l);
    if r != [] {
      assert r[0] == l[0];
    }
  }

  lemma PrefixOfSuffix(s: string, a: nat, n: nat)
    requires a + n <= |s|
    ensures s[a..][..n] == s[a..a + n]
  {
  }

  /** What StripRight cuts from the suffix of s after its leading whitespace is whitespace of s. */
  lemma TrailingSpace(s: string, a: nat, n: nat)
    requires a == |s| - |StripLeft(s)| && n == |Strip(s)|
    ensures forall j | a + n <= j < |s| :: IsSpace(s[j])
  {
    var l := StripLeft(s);
    var r := StripRight(l);
    assert r == Strip(s) && l == s[a..];
    forall j | a + n <= j < |s|
      ensures IsSpace(s[j])
    {
      assert |r| <= j - a < |l|;
      assert s[j] == l[j - a];
    }
  }

  /** Stripping twice is stripping once. */
  lemma StripIdempotent(s: string)
    ensures Strip(Strip(s)) == Strip(s)
  {
    var r := Strip(s);
    StripCharacterised(s);
    assert StripLeft(r) == r;
    assert StripRight(r) == r;
  }

  /** A stripped well-formed line holds no '\n' at all. */
  lemma StrippedLineHasNoNewline(l: string)
    requires IsLine(l)
    ensures '\n' !in Strip(l)
  {
    var r := Strip(l);
    StripCharacterised(l);
    var a := |l| - |StripLeft(l)|;
    forall k | 0 <= k < |r|
      ensures r[k] != '\n'
    {
      assert r[k] == l[a + k];
      if a + k == |l| - 1 {
        assert k == |r| - 1;
      }
    }
  }

  /** `s.split(sep)[-1]`: the text after the last separator, or all of s when there is none. */
  function LastField(s: string, sep: char): (r: string)
    ensures sep !in r
    ensures |r| <= |s| && r == s[|s| - |r|..]
    ensures |r| < |s| ==> s[|s| - |r| - 1] == sep
  {
    s[LastIndexOf(s, sep) + 1..]
  }

  /** A file name without its extension: everything before the last '.'. */
  function Stem(name: string): (r: string)
    ensures |r| <= |name| && r == name[..|r|]
  {
    var i := LastIndexOf(name, '.');
    if i < 0 then name else name[..i]
  }

  /** Naming a file `stem + "." + ext` can be undone: its extension is ext and its stem is stem,
      whatever dots the stem itself contains. */
  lemma NameRoundTrip(stem: string, ext: string)
    requires '.' !in ext
    ensures LastField(stem + "." + ext, '.') == ext
    ensures Stem(stem + "." + ext) == stem
  {
    var name := stem + "." + ext;
    var i := LastIndexOf(name, '.');
    assert name[|stem|] == '.';
    assert forall j | |stem| < j < |name| :: name[j] == ext[j - |stem| - 1];
    assert i == |stem|;
    assert name[i + 1..] == ext;
    assert name[..i] == stem;
  }
}
