/** The commit message generator of src/workspace/commit-message.ts. */
module CommitMessage {
  import opened Wrappers
  import opened Numbers
  import opened Text
  import opened Words

  // --------------------------------------------------------- greedy paragraphs

  function LineLength(line: seq<string>): nat {
    |Join(line, " ")|
  }

  /** The lines the loop still pushes; `current` is the line being filled. */
  function Greedy(words: seq<string>, current: seq<string>, width: int): seq<seq<string>> {
    if words == [] then (if current == [] then [] else [current])
    else if current == [] then Greedy(words[1..], [words[0]], width)
    else if LineLength(current) + 1 + |words[0]| > width then [current] + Greedy(words[1..], [words[0]], width)
    else Greedy(words[1..], current + [words[0]], width)
  }

  function Sentences(lines: seq<seq<string>>): (r: seq<string>)
    ensures |r| == |lines| && forall i | 0 <= i < |r| :: r[i] == Join(lines[i], " ")
  {
    if lines == [] then [] else [Join(lines[0], " ")] + Sentences(lines[1..])
  }

  function Flatten(lines: seq<seq<string>>): seq<string> {
    if lines == [] then [] else lines[0] + Flatten(lines[1..])
  }

  /** A line of a paragraph fits the width or holds a single word. */
  predicate LegalLine(line: seq<string>, width: int) {
    line != [] && (|line| == 1 || LineLength(line) <= width)
  }

  predicate LegalSplit(lines: seq<seq<string>>, width: int) {
    forall i | 0 <= i < |lines| :: LegalLine(lines[i], width)
  }

  lemma LongerByOne(line: seq<string>, word: string)
    requires line != []
    ensures LineLength(line + [word]) == LineLength(line) + 1 + |word|
  {
    JoinAppend(line, [word], " ");
  }

  lemma {:induction false} GreedyIsLegal(words: seq<string>, current: seq<string>, width: int)
    requires current == [] || LegalLine(current, width)
    ensures LegalSplit(Greedy(words, current, width), width)
    ensures Flatten(Greedy(words, current, width)) == current + words
  {
    if words != [] {
      var w := words[0];
      assert current + [w] + words[1..] == current + words;
      if current != [] {
        LongerByOne(current, w);
      }
      if current == [] || LineLength(current) + 1 + |w| > width {
        GreedyIsLegal(words[1..], [w], width);
        assert [w] + words[1..] == words;
      } else {
        GreedyIsLegal(words[1..], current + [w], width);
      }
    }
  }

  lemma {:induction false} PartIsShorter(a: seq<string>, b: seq<string>)
    ensures LineLength(a) <= LineLength(a + b) && LineLength(b) <= LineLength(a + b)
  {
    if a == [] {
      assert a + b == b;
    } else if b == [] {
      assert a + b == a;
    } else {
      JoinAppend(a, b, " ");
    }
  }

  lemma MiddleIsShorter(a: seq<string>, b: seq<string>, c: seq<string>)
    ensures LineLength(b) <= LineLength(a + b + c)
  {
    PartIsShorter(a, b);
    PartIsShorter(a + b, c);
  }

  /** Greedy stays ahead: when another legal split still has to place `behind`
      besides what greedy has to, it needs at least as many more lines. */
  lemma {:induction false} GreedyStaysAhead(words: seq<string>, current: seq<string>, behind: seq<string>, lines: seq<seq<string>>, width: int)
    requires current != [] && LegalSplit(lines, width)
    requires Flatten(lines) == behind + current + words
    ensures |Greedy(words, current, width)| <= |lines|
  {
    assert lines != [];
    if words != [] {
      var w, rest := words[0], words[1..];
      assert words == [w] + rest;
      if LineLength(current) + 1 + |w| <= width {
        assert behind + current + words == behind + (current + [w]) + rest;
        GreedyStaysAhead(rest, current + [w], behind, lines, width);
      } else {
        var first := lines[0];
        var n := |behind| + |current|;
        var all := behind + current + words;
        assert first == all[..|first|];
        if |first| > n {
          assert first == behind + (current + [w]) + all[n + 1..|first|];
          MiddleIsShorter(behind, current + [w], all[n + 1..|first|]);
          LongerByOne(current, w);
        }
        assert |first| <= n;
        assert LegalSplit(lines[1..], width);
        assert Flatten(lines[1..]) == all[|first|..];
        assert all[|first|..] == all[|first|..n] + [w] + rest;
        GreedyStaysAhead(rest, [w], all[|first|..n], lines[1..], width);
      }
    }
  }

  lemma GreedyStarts(words: seq<string>, width: int)
    ensures Greedy(words, [], width) == if words == [] then [] else Greedy(words[1..], [words[0]], width)
  {
  }

  /** The wrapper's choice uses the fewest lines of any legal split of the words. */
  lemma {:induction false} GreedyIsShortest(words: seq<string>, lines: seq<seq<string>>, width: int)
    requires LegalSplit(lines, width) && Flatten(lines) == words
    ensures |Greedy(words, [], width)| <= |lines|
  {
    hide Greedy, LegalSplit, Flatten;
    GreedyStarts(words, width);
    if words != [] {
      assert [] + [words[0]] + words[1..] == words;
      GreedyStaysAhead(words[1..], [words[0]], [], lines, width);
    }
  }

  // ------------------------------------------------------------------ bullets

  // The length of what /^([-*+]\s|\d+\.\s)/ matches, 0 when it does not.
  function MarkerLength(s: string): (n: nat)
    ensures n <= |s| && (n > 0 ==> n >= 2 && IsSpace(s[n - 1]))
  {
    var d := DigitRun(s);
    if |s| >= 2 && s[0] in {'-', '*', '+'} && IsSpace(s[1]) then 2
    else if d > 0 && d + 1 < |s| && s[d] == '.' && IsSpace(s[d + 1]) then d + 2
    else 0
  }

  function Blanks(n: nat): (s: string)
    ensures |s| == n && forall i | 0 <= i < n :: s[i] == ' '
  {
    if n == 0 then "" else " " + Blanks(n - 1)
  }

  function BulletLines(words: seq<string>, current: string, marker: string, width: int): seq<string> {
    if words == [] then (if current == "" then [] else [current])
    else if current == marker then BulletLines(words[1..], current + words[0], marker, width)
    else if |current| + 1 + |words[0]| > width then
      [current] + BulletLines(words[1..], Blanks(|marker|) + words[0], marker, width)
    else BulletLines(words[1..], current + " " + words[0], marker, width)
  }

  function Bullet(line: string, width: int): seq<string> {
    var trimmed := Trim(line);
    if |trimmed| <= width then [trimmed]
    else
      var n := MarkerLength(trimmed);
      BulletLines(Pieces(trimmed[n..]), trimmed[..n], trimmed[..n], width)
  }

  function Paragraph(paragraph: seq<string>, width: int): seq<string> {
    if paragraph == [] then []
    else Sentences(Greedy(Pieces(Trim(Join(paragraph, " "))), [], width))
  }

  /** What the loop over the lines still pushes. */
  function WrapLines(lines: seq<string>, paragraph: seq<string>, width: int): seq<string> {
    if lines == [] then Paragraph(paragraph, width)
    else if Trim(lines[0]) == "" then Paragraph(paragraph, width) + [""] + WrapLines(lines[1..], [], width)
    else if MarkerLength(lines[0]) > 0 then Paragraph(paragraph, width) + Bullet(lines[0], width) + WrapLines(lines[1..], [], width)
    else WrapLines(lines[1..], paragraph + [Trim(lines[0])], width)
  }

  /** `split(/\r?\n/)` */
  function SplitLines(s: string): (lines: seq<string>)
    ensures lines != []
    decreases |s|
  {
    if s == "" then [""]
    else if s[0] == '\n' then [""] + SplitLines(s[1..])
    else if s[0] == '\r' && |s| > 1 && s[1] == '\n' then [""] + SplitLines(s[2..])
    else var rest := SplitLines(s[1..]); [[s[0]] + rest[0]] + rest[1..]
  }

  function Wrapped(text: string, width: int): seq<string> {
    WrapLines(SplitLines(text), [], width)
  }

  predicate Marked(s: string) {
    s != "" && !IsSpace(s[0]) && !IsSpace(s[|s| - 1])
  }

  lemma TrimMarked(s: string)
    requires Trim(s) != ""
    ensures Marked(Trim(s))
  {
    var t := TrimStart(s);
    assert Trim(s)[0] == t[0];
  }

  lemma {:induction false} MarkedPieces(s: string)
    requires Marked(s)
    ensures AreWords(Pieces(s)) && Pieces(s) == WordsOf(s)
    decreases |s|
  {
    hide WordsOf, IsSpace;
    NonBlankPieces(s);
    PiecesAreWords(s);
    NonEmptyWords(Pieces(s));
  }

  lemma MarkedRest(s: string, n: nat)
    requires n < |s| && Marked(s) && IsSpace(s[n])
    ensures var m := LeadingSpaces(s[n..]); 0 < m && n + m < |s| && Marked(s[n + m..])
  {
    var t := s[n..];
    assert t[|t| - 1] == s[|s| - 1];
    var m := LeadingSpaces(t);
    assert t[m..] == s[n + m..];
  }

  lemma FirstWord(s: string)
    requires Marked(s)
    ensures IsWord(s[..RunLength(s)])
  {
  }

  lemma {:induction false} NonBlankPieces(s: string)
    requires Marked(s)
    ensures AreWords(Pieces(s))
    decreases |s|
  {
    hide Marked, IsSpace, IsWord, RunLength, LeadingSpaces;
    var n := RunLength(s);
    FirstWord(s);
    if n == |s| {
      assert s[..n] == s;
      assert Pieces(s) == [s];
    } else {
      MarkedRest(s, n);
      var rest := s[n + LeadingSpaces(s[n..])..];
      NonBlankPieces(rest);
      assert Pieces(s) == [s[..n]] + Pieces(rest);
    }
  }

  /** The lines of a paragraph are trimmed and not blank. */
  predicate AreMarked(lines: seq<string>) {
    forall i | 0 <= i < |lines| :: Marked(lines[i])
  }

  lemma {:induction false} JoinMarked(lines: seq<string>)
    requires lines != [] && AreMarked(lines)
    ensures Marked(Join(lines, " ")) && Trim(Join(lines, " ")) == Join(lines, " ")
  {
    if |lines| > 1 {
      JoinMarked(lines[1..]);
    }
    var s := Join(lines, " ");
    assert s[0] == lines[0][0];
    TrimStartUnique(s, 0);
    TrimEndUnique(s, |s|);
  }

  /** One turn of the paragraph loop. */
  lemma GreedyStep(words: seq<string>, i: nat, line: seq<string>, width: int)
    requires i < |words|
    ensures var w := words[i];
      Sentences(Greedy(words[i..], line, width)) ==
        if line == [] then Sentences(Greedy(words[i + 1..], [w], width))
        else if |Join(line, " ")| + 1 + |w| > width then [Join(line, " ")] + Sentences(Greedy(words[i + 1..], [w], width))
        else Sentences(Greedy(words[i + 1..], line + [w], width))
    ensures line != [] ==> Join(line + [words[i]], " ") == Join(line, " ") + " " + words[i]
    ensures Join([words[i]], " ") == words[i]
  {
    var w := words[i];
    assert words[i..][0] == w && words[i..][1..] == words[i + 1..];
    var tail := Greedy(words[i + 1..], [w], width);
    assert ([line] + tail)[1..] == tail;
    if line != [] {
      JoinAppend(line, [w], " ");
    }
  }

  lemma GreedyEnd(line: seq<string>, width: int)
    ensures Sentences(Greedy([], line, width)) == if line == [] then [] else [Join(line, " ")]
  {
  }

  method FlushParagraph(paragraph: seq<string>, maxWidth: int) returns (result: seq<string>)
    requires AreMarked(paragraph)
    ensures result == Paragraph(paragraph, maxWidth)
  {
    hide Greedy, Sentences, Join, Pieces, Trim, Marked, AreWords, WordsOf;
    result := [];
    if |paragraph| == 0 {
      return;
    }
    var words := Pieces(Trim(Join(paragraph, " ")));
    JoinMarked(paragraph);
    MarkedPieces(Join(paragraph, " "));
    var current := "";
    ghost var line: seq<string> := [];
    EmptyLine();
    var i := 0;
    ghost var all := Sentences(Greedy(words, [], maxWidth));
    assert words[0..] == words;
    while i < |words|
      invariant 0 <= i <= |words|
      invariant current == Join(line, " ") && (line != [] <==> current != "")
      invariant result + Sentences(Greedy(words[i..], line, maxWidth)) == all
    {
      var word := words[i];
      GreedyStep(words, i, line, maxWidth);
      WordAt(words, i);
      if current == "" {
        current := word;
        line := [word];
      } else if |current| + 1 + |word| > maxWidth {
        Associative(result, [current], Sentences(Greedy(words[i + 1..], [word], maxWidth)));
        result := result + [current];
        current := word;
        line := [word];
      } else {
        current := current + " " + word;
        line := line + [word];
      }
      i := i + 1;
    }
    assert words[i..] == [];
    GreedyEnd(line, maxWidth);
    if current != "" {
      result := result + [current];
    }
  }

  lemma EmptyLine()
    ensures Join([], " ") == ""
  {
  }

  lemma WordAt(words: seq<string>, i: nat)
    requires i < |words| && AreWords(words)
    ensures words[i] != ""
  {
    assert IsWord(words[i]);
  }

  lemma BulletStep(words: seq<string>, i: nat, current: string, marker: string, width: int)
    requires i < |words|
    ensures var w := words[i];
      BulletLines(words[i..], current, marker, width) ==
        if current == marker then BulletLines(words[i + 1..], current + w, marker, width)
        else if |current| + 1 + |w| > width then [current] + BulletLines(words[i + 1..], Blanks(|marker|) + w, marker, width)
        else BulletLines(words[i + 1..], current + " " + w, marker, width)
  {
    assert words[i..][0] == words[i] && words[i..][1..] == words[i + 1..];
  }

  method WrapBullet(line: string, maxWidth: int) returns (result: seq<string>)
    ensures result == Bullet(line, maxWidth)
  {
    hide BulletLines, Pieces, Trim, MarkerLength, Blanks;
    var trimmed := Trim(line);
    if |trimmed| <= maxWidth {
      return [trimmed];
    }
    result := [];
    var n := MarkerLength(trimmed);
    var marker := trimmed[..n];
    var words := Pieces(trimmed[n..]);
    var indent := Blanks(|marker|);
    var current := marker;
    var i := 0;
    ghost var all := BulletLines(words, marker, marker, maxWidth);
    assert words[0..] == words;
    while i < |words|
      invariant 0 <= i <= |words|
      invariant result + BulletLines(words[i..], current, marker, maxWidth) == all
    {
      var word := words[i];
      BulletStep(words, i, current, marker, maxWidth);
      if current == marker {
        current := current + word;
      } else if |current| + 1 + |word| > maxWidth {
        Associative(result, [current], BulletLines(words[i + 1..], indent + word, marker, maxWidth));
        result := result + [current];
        current := indent + word;
      } else {
        current := current + " " + word;
      }
      i := i + 1;
    }
    assert words[i..] == [];
    BulletEnd(current, marker, maxWidth);
    if current != "" {
      result := result + [current];
    }
  }

  lemma BulletEnd(current: string, marker: string, width: int)
    ensures BulletLines([], current, marker, width) == if current == "" then [] else [current]
  {
  }

  lemma WrapStep(lines: seq<string>, i: nat, paragraph: seq<string>, width: int)
    requires i < |lines|
    ensures var line := lines[i]; var flushed := Paragraph(paragraph, width);
      WrapLines(lines[i..], paragraph, width) ==
        if Trim(line) == "" then flushed + [""] + WrapLines(lines[i + 1..], [], width)
        else if MarkerLength(line) > 0 then flushed + Bullet(line, width) + WrapLines(lines[i + 1..], [], width)
        else WrapLines(lines[i + 1..], paragraph + [Trim(line)], width)
  {
    assert lines[i..][0] == lines[i] && lines[i..][1..] == lines[i + 1..];
  }

  lemma WrapEnd(paragraph: seq<string>, width: int)
    ensures WrapLines([], paragraph, width) == Paragraph(paragraph, width)
  {
  }

  method WrapText(text: string, maxWidth: int) returns (wrapped: string)
    ensures wrapped == Join(Wrapped(text, maxWidth), "\n")
  {
    hide WrapLines, Paragraph, Bullet, Trim, MarkerLength, Marked, Join, SplitLines;
    var lines := SplitLines(text);
    var result: seq<string> := [];
    var paragraph: seq<string> := [];
    var i := 0;
    ghost var all := WrapLines(lines, [], maxWidth);
    assert lines[0..] == lines;
    while i < |lines|
      invariant 0 <= i <= |lines|
      invariant AreMarked(paragraph)
      invariant result + WrapLines(lines[i..], paragraph, maxWidth) == all
    {
      var line := lines[i];
      WrapStep(lines, i, paragraph, maxWidth);
      if Trim(line) == "" {
        var flushed := FlushParagraph(paragraph, maxWidth);
        paragraph := [];
        Associative(result, flushed + [""], WrapLines(lines[i + 1..], [], maxWidth));
        result := result + (flushed + [""]);
      } else if MarkerLength(line) > 0 {
        var flushed := FlushParagraph(paragraph, maxWidth);
        paragraph := [];
        var bullet := WrapBullet(line, maxWidth);
        Associative(result, flushed + bullet, WrapLines(lines[i + 1..], [], maxWidth));
        result := result + (flushed + bullet);
      } else {
        TrimMarked(line);
        paragraph := paragraph + [Trim(line)];
      }
      i := i + 1;
    }
    assert lines[i..] == [];
    WrapEnd(paragraph, maxWidth);
    var flushed := FlushParagraph(paragraph, maxWidth);
    result := result + flushed;
    return Join(result, "\n");
  }

  // ------------------------------------------------------------ words are kept

  lemma SingleLine(line: string)
    ensures LineWords([line]) == WordsOf(line)
  {
    var none: seq<string> := [line][1..];
    assert none == [];
  }

  lemma {:induction false} SentenceWords(lines: seq<seq<string>>)
    requires forall i | 0 <= i < |lines| :: AreWords(lines[i])
    ensures LineWords(Sentences(lines)) == Flatten(lines)
  {
    if lines != [] {
      WordsOfSentence(lines[0]);
      SentenceWords(lines[1..]);
      assert Sentences(lines)[1..] == Sentences(lines[1..]);
    }
  }

  lemma {:induction false} GreedyWords(words: seq<string>, current: seq<string>, width: int)
    requires AreWords(words) && AreWords(current)
    ensures forall i | 0 <= i < |Greedy(words, current, width)| :: AreWords(Greedy(words, current, width)[i])
  {
    if words != [] {
      assert IsWord(words[0]);
      if current == [] || LineLength(current) + 1 + |words[0]| > width {
        GreedyWords(words[1..], [words[0]], width);
      } else {
        GreedyWords(words[1..], current + [words[0]], width);
      }
    }
  }

  /** A paragraph is cut into the fewest legal lines that hold its words in order. */
  lemma ParagraphIsShortest(paragraph: seq<string>, width: int, other: seq<seq<string>>)
    requires paragraph != [] && AreMarked(paragraph)
    ensures var words := WordsOf(Join(paragraph, " ")); var lines := Greedy(words, [], width);
      && Paragraph(paragraph, width) == Sentences(lines)
      && LegalSplit(lines, width) && Flatten(lines) == words
      && (LegalSplit(other, width) && Flatten(other) == words ==> |Paragraph(paragraph, width)| <= |other|)
  {
    hide WordsOf, Greedy, LegalSplit, Pieces, Trim;
    JoinMarked(paragraph);
    MarkedPieces(Join(paragraph, " "));
    var words := WordsOf(Join(paragraph, " "));
    GreedyIsLegal(words, [], width);
    assert [] + words == words;
    if LegalSplit(other, width) && Flatten(other) == words {
      GreedyIsShortest(words, other, width);
    }
  }

  lemma ParagraphWords(paragraph: seq<string>, width: int)
    requires AreMarked(paragraph)
    ensures LineWords(Paragraph(paragraph, width)) == LineWords(paragraph)
  {
    hide WordsOf, Greedy, Pieces, Trim;
    if paragraph != [] {
      var s := Join(paragraph, " ");
      JoinMarked(paragraph);
      MarkedPieces(s);
      JoinWords(paragraph, ' ');
      var words := WordsOf(s);
      GreedyIsLegal(words, [], width);
      GreedyWords(words, [], width);
      SentenceWords(Greedy(words, [], width));
      assert [] + words == words;
    }
  }

  /** `prefix` ends in white space or is empty, so the word after it stands alone. */
  lemma WordsAfter(prefix: string, word: string)
    requires SpaceFree(word) && (prefix == "" || IsSpace(prefix[|prefix| - 1]))
    ensures WordsOf(prefix + word) == WordsOf(prefix) + Flushed(word)
  {
    hide WordsFrom, IsSpace;
    WordOfWord(word);
    if prefix == "" {
      assert prefix + word == word;
      WordOfWord("");
    } else {
      var k := |prefix| - 1;
      assert prefix + word == prefix[..k] + [prefix[k]] + word && prefix == prefix[..k] + [prefix[k]] + "";
      WordsAtSpace(prefix[..k], prefix[k], word, "");
      WordsAtSpace(prefix[..k], prefix[k], "", "");
      WordOfWord("");
    }
  }

  lemma BlankWord(n: nat, word: string)
    requires SpaceFree(word)
    ensures WordsOf(Blanks(n) + word) == Flushed(word)
  {
    WordsAfter(Blanks(n), word);
    LeadingSpaceNoWords(Blanks(n), n);
  }

  lemma {:induction false} BulletWords(words: seq<string>, current: string, marker: string, width: int)
    requires forall i | 0 <= i < |words| :: SpaceFree(words[i])
    requires marker == "" || IsSpace(marker[|marker| - 1])
    ensures LineWords(BulletLines(words, current, marker, width)) == WordsOf(current) + NonEmpty(words)
  {
    hide WordsFrom, IsSpace;
    if words == [] {
      WordOfWord("");
      SingleLine(current);
    } else {
      var w, rest := words[0], words[1..];
      if current == marker {
        BulletWords(rest, current + w, marker, width);
        WordsAfter(current, w);
        Associative(WordsOf(current), Flushed(w), NonEmpty(rest));
      } else if |current| + 1 + |w| > width {
        var next := Blanks(|marker|) + w;
        BulletWords(rest, next, marker, width);
        BlankWord(|marker|, w);
        assert ([current] + BulletLines(rest, next, marker, width))[1..] == BulletLines(rest, next, marker, width);
      } else {
        BulletWords(rest, current + " " + w, marker, width);
        WordsAtSpace(current, ' ', w, "");
        WordOfWord(w);
        Associative(WordsOf(current), Flushed(w), NonEmpty(rest));
      }
    }
  }

  lemma BulletKeepsWords(line: string, width: int)
    ensures LineWords(Bullet(line, width)) == WordsOf(line)
  {
    hide WordsOf, Trim, IsSpace;
    var trimmed := Trim(line);
    TrimKeepsWords(line);
    if |trimmed| <= width {
      SingleLine(trimmed);
    } else {
      var n := MarkerLength(trimmed);
      var marker, rest := trimmed[..n], trimmed[n..];
      PiecesAreWords(rest);
      BulletWords(Pieces(rest), marker, marker, width);
      if n == 0 {
        WordOfWord("");
        assert rest == trimmed;
      } else {
        assert trimmed == trimmed[..n - 1] + [trimmed[n - 1]] + rest && marker == trimmed[..n - 1] + [trimmed[n - 1]] + "";
        SpaceJoins(trimmed[..n - 1], trimmed[n - 1], rest);
      }
    }
  }

  lemma SpaceJoins(a: string, c: char, b: string)
    requires IsSpace(c)
    ensures WordsOf(a + [c] + b) == WordsOf(a + [c] + "") + WordsOf(b)
  {
    hide WordsFrom;
    WordsAtSpace(a, c, b, "");
    WordsAtSpace(a, c, "", "");
    WordOfWord("");
  }

  lemma {:induction false} WrapLinesWords(lines: seq<string>, paragraph: seq<string>, width: int)
    requires AreMarked(paragraph)
    ensures LineWords(WrapLines(lines, paragraph, width)) == LineWords(paragraph) + LineWords(lines)
  {
    hide WordsOf, Trim, Paragraph, Bullet, MarkerLength, Marked;
    ParagraphWords(paragraph, width);
    if lines != [] {
      var line, rest := lines[0], lines[1..];
      var head := Paragraph(paragraph, width);
      if Trim(line) == "" {
        WrapLinesWords(rest, [], width);
        BlankLineWords(head, line, WrapLines(rest, [], width));
      } else if MarkerLength(line) > 0 {
        WrapLinesWords(rest, [], width);
        BulletKeepsWords(line, width);
        LineWordsAppend(head, Bullet(line, width));
        LineWordsAppend(head + Bullet(line, width), WrapLines(rest, [], width));
        Associative(LineWords(paragraph), WordsOf(line), LineWords(rest));
      } else {
        TrimMarked(line);
        WrapLinesWords(rest, paragraph + [Trim(line)], width);
        TrimKeepsWords(line);
        LineWordsAppend(paragraph, [Trim(line)]);
        SingleLine(Trim(line));
        Associative(LineWords(paragraph), WordsOf(line), LineWords(rest));
      }
    }
  }

  lemma BlankLineWords(head: seq<string>, line: string, tail: seq<string>)
    requires Trim(line) == ""
    ensures LineWords(head + [""] + tail) == LineWords(head) + LineWords(tail) && WordsOf(line) == []
  {
    BlankHasNoWords(line);
    LineWordsAppend(head, [""]);
    LineWordsAppend(head + [""], tail);
    SingleLine("");
  }

  lemma {:induction false} SplitLinesWords(s: string, current: string)
    requires SpaceFree(current)
    ensures var lines := SplitLines(s);
      WordsFrom(s, current) == WordsFrom(lines[0], current) + LineWords(lines[1..])
    decreases |s|
  {
    if s != "" {
      if s[0] == '\n' {
        SplitLinesWords(s[1..], "");
        assert SplitLines(s)[1..] == SplitLines(s[1..]);
      } else if s[0] == '\r' && |s| > 1 && s[1] == '\n' {
        SplitLinesWords(s[2..], "");
        assert SplitLines(s)[1..] == SplitLines(s[2..]) && s[1..][1..] == s[2..];
      } else {
        var rest := SplitLines(s[1..]);
        assert SplitLines(s)[1..] == rest[1..] && ([s[0]] + rest[0])[1..] == rest[0];
        if IsSpace(s[0]) {
          SplitLinesWords(s[1..], "");
          Associative(Flushed(current), WordsFrom(rest[0], ""), LineWords(rest[1..]));
        } else {
          SplitLinesWords(s[1..], current + [s[0]]);
        }
      }
    }
  }

  /** Wrapping keeps every word of every text, in order. */
  lemma WrapKeepsWords(text: string, width: int)
    ensures WordsOf(Join(Wrapped(text, width), "\n")) == WordsOf(text)
  {
    hide WordsFrom, WrapLines, SplitLines;
    var lines := SplitLines(text);
    JoinWords(Wrapped(text, width), '\n');
    WrapLinesWords(lines, [], width);
    SplitLinesWords(text, "");
    assert LineWords([]) + LineWords(lines) == LineWords(lines);
  }

  // ------------------------------------------------------------ widths are kept

  /** A line fits, or is one word after a marker, an indent or nothing. */
  ghost predicate FitsOrOneWord(line: string, width: int) {
    |line| <= width || exists n: nat :: OneWordAfter(line, n)
  }

  predicate OneWordAfter(line: string, n: nat) {
    n <= |line| && (AllSpace(line[..n]) || MarkerLength(line) == n) && SpaceFree(line[n..])
  }

  predicate AfterMarker(line: string, marker: string) {
    marker <= line && SpaceFree(line[|marker|..])
  }

  lemma {:induction false} DigitsOf(a: string, b: string)
    requires DigitRun(a) < |a|
    ensures DigitRun(a + b) == DigitRun(a)
  {
    if IsDigit(a[0]) {
      DigitsOf(a[1..], b);
      assert (a + b)[1..] == a[1..] + b;
    }
  }

  /** A marker is recognised whatever follows it. */
  lemma MarkerStays(trimmed: string, word: string)
    requires MarkerLength(trimmed) > 0
    ensures var n := MarkerLength(trimmed); MarkerLength(trimmed[..n] + word) == n
  {
    var n := MarkerLength(trimmed);
    var marker := trimmed[..n];
    assert trimmed == marker + trimmed[n..];
    if n == DigitRun(trimmed) + 2 && !(|trimmed| >= 2 && trimmed[0] in {'-', '*', '+'} && IsSpace(trimmed[1])) {
      assert DigitRun(trimmed) == n - 2;
      MarkerDigits(trimmed, n - 2);
      DigitsOf(marker, word);
    }
  }

  lemma {:induction false} MarkerDigits(s: string, d: nat)
    requires DigitRun(s) == d && d + 2 <= |s|
    ensures DigitRun(s[..d + 2]) == d
  {
    var t := s[..d + 2];
    if d > 0 {
      MarkerDigits(s[1..], d - 1);
      assert t[1..] == s[1..][..d + 1];
    }
  }

  lemma {:induction false} BulletFits(words: seq<string>, current: string, marker: string, width: int)
    requires forall i | 0 <= i < |words| :: SpaceFree(words[i])
    requires marker == "" || (forall w :: SpaceFree(w) ==> MarkerLength(marker + w) == |marker|)
    requires FitsOrOneWord(current, width)
    ensures forall i | 0 <= i < |BulletLines(words, current, marker, width)| :: FitsOrOneWord(BulletLines(words, current, marker, width)[i], width)
  {
    if words != [] {
      var w := words[0];
      if current == marker {
        var next := current + w;
        assert next[|marker|..] == w && (marker == "" ==> next[..|marker|] == "");
        assert OneWordAfter(next, |marker|);
        BulletFits(words[1..], next, marker, width);
      } else if |current| + 1 + |w| > width {
        var next := Blanks(|marker|) + w;
        assert next[|marker|..] == w && next[..|marker|] == Blanks(|marker|);
        assert OneWordAfter(next, |marker|);
        BulletFits(words[1..], next, marker, width);
      } else {
        BulletFits(words[1..], current + " " + w, marker, width);
      }
    }
  }

  lemma BulletLinesFit(line: string, width: int)
    ensures forall i | 0 <= i < |Bullet(line, width)| :: FitsOrOneWord(Bullet(line, width)[i], width)
  {
    var trimmed := Trim(line);
    if |trimmed| > width {
      var n := MarkerLength(trimmed);
      var marker := trimmed[..n];
      PiecesAreWords(trimmed[n..]);
      forall w | SpaceFree(w)
        ensures n > 0 ==> MarkerLength(marker + w) == n
      {
        if n > 0 {
          MarkerStays(trimmed, w);
        }
      }
      assert marker + "" == marker && SpaceFree("");
      assert OneWordAfter(marker, n);
      BulletFits(Pieces(trimmed[n..]), marker, marker, width);
    }
  }

  lemma PlainWordsFit(words: seq<string>, width: int)
    requires AreWords(words)
    ensures var lines := Sentences(Greedy(words, [], width));
      forall i | 0 <= i < |lines| :: FitsOrOneWord(lines[i], width)
  {
    hide Greedy, MarkerLength, IsSpace;
    GreedyIsLegal(words, [], width);
    GreedyWords(words, [], width);
    var lines := Greedy(words, [], width);
    forall i | 0 <= i < |lines|
      ensures FitsOrOneWord(Sentences(lines)[i], width)
    {
      assert LegalLine(lines[i], width) && AreWords(lines[i]);
      if |lines[i]| == 1 {
        assert IsWord(lines[i][0]);
        assert OneWordAfter(lines[i][0], 0);
      }
    }
  }

  lemma ParagraphLinesFit(paragraph: seq<string>, width: int)
    requires AreMarked(paragraph)
    ensures forall i | 0 <= i < |Paragraph(paragraph, width)| :: FitsOrOneWord(Paragraph(paragraph, width)[i], width)
  {
    hide WordsFrom, Pieces, Trim, Greedy, Marked;
    if paragraph == [] {
      assert Paragraph(paragraph, width) == [];
    } else {
      var words := Pieces(Trim(Join(paragraph, " ")));
      assert Paragraph(paragraph, width) == Sentences(Greedy(words, [], width));
      JoinMarked(paragraph);
      MarkedPieces(Join(paragraph, " "));
      PlainWordsFit(words, width);
    }
  }

  lemma {:induction false} WrapLinesFit(lines: seq<string>, paragraph: seq<string>, width: nat)
    requires AreMarked(paragraph)
    ensures forall i | 0 <= i < |WrapLines(lines, paragraph, width)| :: FitsOrOneWord(WrapLines(lines, paragraph, width)[i], width)
  {
    hide Paragraph, Bullet, Marked, MarkerLength;
    ParagraphLinesFit(paragraph, width);
    if lines != [] {
      if Trim(lines[0]) == "" {
        WrapLinesFit(lines[1..], [], width);
      } else if MarkerLength(lines[0]) > 0 {
        BulletLinesFit(lines[0], width);
        WrapLinesFit(lines[1..], [], width);
      } else {
        TrimMarked(lines[0]);
        WrapLinesFit(lines[1..], paragraph + [Trim(lines[0])], width);
      }
    }
  }

  /** Every line of the wrapped text fits, or is one word after its marker or indent. */
  lemma WrappedLinesFit(text: string, width: nat)
    ensures forall i | 0 <= i < |Wrapped(text, width)| :: FitsOrOneWord(Wrapped(text, width)[i], width)
  {
    WrapLinesFit(SplitLines(text), [], width);
  }
}
