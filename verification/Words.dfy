/** Words: the maximal runs of characters that are not white space. */
module Words {
  import opened Text

  function Flushed(current: string): seq<string> {
    if current == "" then [] else [current]
  }

  function WordsFrom(s: string, current: string): seq<string> {
    if s == "" then Flushed(current)
    else if IsSpace(s[0]) then Flushed(current) + WordsFrom(s[1..], "")
    else WordsFrom(s[1..], current + [s[0]])
  }

  function WordsOf(s: string): seq<string> {
    WordsFrom(s, "")
  }

  predicate SpaceFree(s: string) {
    forall i | 0 <= i < |s| :: !IsSpace(s[i])
  }

  predicate IsWord(s: string) {
    s != "" && SpaceFree(s)
  }

  predicate AreWords(words: seq<string>) {
    forall i | 0 <= i < |words| :: IsWord(words[i])
  }

  /** `split(/\s+/)`: the pieces between runs of white space, some possibly empty. */
  function RunLength(s: string): (n: nat)
    ensures n <= |s| && (forall i | 0 <= i < n :: !IsSpace(s[i])) && (n < |s| ==> IsSpace(s[n]))
  {
    if s == "" || IsSpace(s[0]) then 0 else 1 + RunLength(s[1..])
  }

  function Pieces(s: string): seq<string>
    decreases |s|
  {
    var n := RunLength(s);
    if n == |s| then [s]
    else
      var m := LeadingSpaces(s[n..]);
      [s[..n]] + (if m == 0 then [] else Pieces(s[n + m..]))
  }

  function NonEmpty(pieces: seq<string>): seq<string> {
    if pieces == [] then [] else Flushed(pieces[0]) + NonEmpty(pieces[1..])
  }

  lemma {:induction false} WordsAreWords(s: string, current: string)
    requires SpaceFree(current)
    ensures AreWords(WordsFrom(s, current))
  {
    if s != "" {
      WordsAreWords(s[1..], if IsSpace(s[0]) then "" else current + [s[0]]);
    }
  }

  /** A white space character separates words. */
  lemma {:induction false} WordsAtSpace(a: string, c: char, b: string, current: string)
    requires IsSpace(c)
    ensures WordsFrom(a + [c] + b, current) == WordsFrom(a, current) + WordsOf(b)
  {
    var s := a + [c] + b;
    if a == "" {
      assert s[0] == c && s[1..] == b;
    } else {
      assert s[0] == a[0] && s[1..] == a[1..] + [c] + b;
      if IsSpace(a[0]) {
        WordsAtSpace(a[1..], c, b, "");
        Associative(Flushed(current), WordsFrom(a[1..], ""), WordsOf(b));
      } else {
        WordsAtSpace(a[1..], c, b, current + [a[0]]);
      }
    }
  }

  lemma Associative<T>(a: seq<T>, b: seq<T>, c: seq<T>)
    ensures a + b + c == a + (b + c)
  {
  }

  lemma {:induction false} RunIsWord(a: string, s: string, current: string)
    requires SpaceFree(a)
    ensures WordsFrom(a + s, current) == WordsFrom(s, current + a)
  {
    if a == "" {
      assert a + s == s && current + a == current;
    } else {
      RunIsWord(a[1..], s, current + [a[0]]);
      assert (a + s)[0] == a[0] && (a + s)[1..] == a[1..] + s;
      assert current + [a[0]] + a[1..] == current + a;
    }
  }

  lemma WordOfWord(w: string)
    requires SpaceFree(w)
    ensures WordsOf(w) == Flushed(w)
  {
    RunIsWord(w, "", "");
    assert w + "" == w && "" + w == w;
  }

  lemma {:induction false} LeadingSpaceNoWords(s: string, n: nat)
    requires n <= |s| && forall i | 0 <= i < n :: IsSpace(s[i])
    ensures WordsOf(s) == WordsOf(s[n..])
  {
    if n > 0 {
      LeadingSpaceNoWords(s[1..], n - 1);
      assert s[1..][n - 1..] == s[n..];
    } else {
      assert s[0..] == s;
    }
  }

  lemma {:induction false} TrailingSpaceNoWords(s: string, n: nat)
    requires n <= |s| && forall i | n <= i < |s| :: IsSpace(s[i])
    ensures WordsOf(s) == WordsOf(s[..n])
    decreases |s| - n
  {
    if n < |s| {
      TrailingSpaceNoWords(s, n + 1);
      assert s[..n + 1] == s[..n] + [s[n]] + "";
      WordsAtSpace(s[..n], s[n], "", "");
    } else {
      assert s[..n] == s;
    }
  }

  lemma TrimKeepsWords(s: string)
    ensures WordsOf(Trim(s)) == WordsOf(s)
  {
    LeadingSpaceNoWords(s, LeadingSpaces(s));
    var t := TrimStart(s);
    TrailingSpaceNoWords(t, |TrimEnd(t)|);
    assert TrimEnd(t) == t[..|TrimEnd(t)|];
  }

  lemma BlankHasNoWords(s: string)
    requires Trim(s) == ""
    ensures WordsOf(s) == []
  {
    TrimKeepsWords(s);
  }

  lemma SkipRun(t: string)
    requires t != "" && IsSpace(t[0])
    ensures WordsOf(t[1..]) == WordsOf(t[LeadingSpaces(t)..])
  {
    LeadingSpaceNoWords(t, LeadingSpaces(t));
  }

  lemma FirstPiece(s: string, n: nat)
    requires n < |s| && SpaceFree(s[..n]) && IsSpace(s[n])
    ensures WordsOf(s) == Flushed(s[..n]) + WordsOf(s[n + LeadingSpaces(s[n..])..])
  {
    hide WordsFrom, IsSpace, LeadingSpaces;
    var w, t, rest := s[..n], s[n..], s[n + 1..];
    var m := LeadingSpaces(t);
    WordOfWord(w);
    assert s == w + [s[n]] + rest;
    WordsAtSpace(w, s[n], rest, "");
    assert t[0] == s[n] && t[1..] == rest && t[m..] == s[n + m..];
    SkipRun(t);
  }

  lemma {:induction false} PiecesAreWords(s: string)
    ensures NonEmpty(Pieces(s)) == WordsOf(s)
    ensures forall i | 0 <= i < |Pieces(s)| :: SpaceFree(Pieces(s)[i])
    decreases |s|
  {
    hide WordsOf, IsSpace, RunLength, LeadingSpaces;
    var n := RunLength(s);
    if n == |s| {
      assert Pieces(s)[1..] == [];
      assert s[..n] == s;
      WordOfWord(s);
    } else {
      var m := LeadingSpaces(s[n..]);
      FirstPiece(s, n);
      assert s[n..][0] == s[n];
      PiecesAreWords(s[n + m..]);
      assert Pieces(s)[1..] == Pieces(s[n + m..]);
    }
  }

  lemma NonEmptyWords(pieces: seq<string>)
    requires AreWords(pieces)
    ensures NonEmpty(pieces) == pieces
  {
  }

  /** The words of several lines. */
  function LineWords(lines: seq<string>): seq<string> {
    if lines == [] then [] else WordsOf(lines[0]) + LineWords(lines[1..])
  }

  lemma {:induction false} LineWordsAppend(a: seq<string>, b: seq<string>)
    ensures LineWords(a + b) == LineWords(a) + LineWords(b)
  {
    if a == [] {
      assert a + b == b;
    } else {
      LineWordsAppend(a[1..], b);
      assert (a + b)[1..] == a[1..] + b;
      Associative(WordsOf(a[0]), LineWords(a[1..]), LineWords(b));
    }
  }

  lemma {:induction false} JoinWords(lines: seq<string>, c: char)
    requires IsSpace(c)
    ensures WordsOf(Join(lines, [c])) == LineWords(lines)
  {
    if |lines| == 1 {
      assert LineWords(lines[1..]) == [];
    } else if |lines| > 1 {
      JoinWords(lines[1..], c);
      WordsAtSpace(lines[0], c, Join(lines[1..], [c]), "");
    }
  }

  lemma {:induction false} WordsOfSentence(words: seq<string>)
    requires AreWords(words)
    ensures WordsOf(Join(words, " ")) == words
  {
    JoinWords(words, ' ');
    if words != [] {
      WordOfWord(words[0]);
      WordsOfSentence(words[1..]);
      JoinWords(words[1..], ' ');
    }
  }
}
