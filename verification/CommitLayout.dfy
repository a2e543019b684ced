/** How the body of a commit message is laid out: which lines of the summary may be
    joined and which keep a line of their own (src/workspace/commit-message.ts, wrapText). */
module CommitLayout {
  import opened CommitMessage
  import opened CommitSubject
  import opened Numbers
  import opened Text
  import opened Words
  import opened Wrappers

  predicate IsBlank(line: string) {
    Trim(line) == ""
  }

  predicate IsItem(line: string) {
    !IsBlank(line) && MarkerLength(line) > 0
  }

  predicate IsText(line: string) {
    !IsBlank(line) && MarkerLength(line) == 0
  }

  /** Lines of a summary and the lines of the message they became. */
  datatype Group = Group(lines: seq<string>, printed: seq<string>)

  function Sources(groups: seq<Group>): seq<string> {
    if groups == [] then [] else groups[0].lines + Sources(groups[1..])
  }

  function Prints(groups: seq<Group>): seq<string> {
    if groups == [] then [] else groups[0].printed + Prints(groups[1..])
  }

  /** An item starts a line of its own with its marker, or is nothing but a marker; the lines
      that continue it stand just right of the marker. */
  predicate IsPrintedItem(line: string, printed: seq<string>) {
    var marker := line[..MarkerLength(line)];
    && printed != [] && LineWords(printed) == WordsOf(line)
    && (marker <= printed[0] || printed == [Trim(marker)])
    && forall i | 0 < i < |printed| :: Blanks(|marker|) <= printed[i] && |printed[i]| > |marker| && !IsSpace(printed[i][|marker|])
  }

  /** Only lines of one paragraph are joined, and none of them becomes an empty line. */
  predicate IsPrintedText(lines: seq<string>, printed: seq<string>) {
    && printed != [] && LineWords(printed) == LineWords(lines)
    && forall i | 0 <= i < |printed| :: Marked(printed[i])
  }

  predicate IsTextGroup(g: Group) {
    g.lines != [] && forall i | 0 <= i < |g.lines| :: IsText(g.lines[i])
  }

  predicate IsGroup(g: Group) {
    if |g.lines| == 1 && IsBlank(g.lines[0]) then g.printed == [""]
    else if |g.lines| == 1 && IsItem(g.lines[0]) then IsPrintedItem(g.lines[0], g.printed)
    else IsTextGroup(g) && IsPrintedText(g.lines, g.printed)
  }

  predicate AreGroups(groups: seq<Group>) {
    && (forall i | 0 <= i < |groups| :: IsGroup(groups[i]))
    && (forall i | 0 <= i < |groups| - 1 :: !(IsTextGroup(groups[i]) && IsTextGroup(groups[i + 1])))
  }

  /** `printed` is `lines` laid out group by group: a blank line as an empty one, an item on
      lines of its own, a whole paragraph on lines of its own. */
  ghost predicate IsLayout(lines: seq<string>, printed: seq<string>) {
    exists groups :: AreGroups(groups) && Sources(groups) == lines && Prints(groups) == printed
  }

  // ------------------------------------------------------------------- groups

  function Trimmed(lines: seq<string>): (r: seq<string>)
    ensures |r| == |lines| && forall i | 0 <= i < |r| :: r[i] == Trim(lines[i])
  {
    if lines == [] then [] else [Trim(lines[0])] + Trimmed(lines[1..])
  }

  function TextGroup(pending: seq<string>, width: int): seq<Group> {
    if pending == [] then [] else [Group(pending, Paragraph(Trimmed(pending), width))]
  }

  /** The groups of the lines, after a paragraph begun by `pending`. */
  function Grouped(lines: seq<string>, pending: seq<string>, width: int): seq<Group> {
    if lines == [] then TextGroup(pending, width)
    else if IsBlank(lines[0]) then TextGroup(pending, width) + ([Group([lines[0]], [""])] + Grouped(lines[1..], [], width))
    else if IsItem(lines[0]) then TextGroup(pending, width) + ([Group([lines[0]], Bullet(lines[0], width))] + Grouped(lines[1..], [], width))
    else Grouped(lines[1..], pending + [lines[0]], width)
  }

  lemma {:induction false} SourcesAppend(a: seq<Group>, b: seq<Group>)
    ensures Sources(a + b) == Sources(a) + Sources(b) && Prints(a + b) == Prints(a) + Prints(b)
  {
    if a == [] {
      assert a + b == b;
    } else {
      SourcesAppend(a[1..], b);
      assert (a + b)[1..] == a[1..] + b;
      Associative(a[0].lines, Sources(a[1..]), Sources(b));
      Associative(a[0].printed, Prints(a[1..]), Prints(b));
    }
  }

  lemma OneGroup(g: Group)
    ensures Sources([g]) == g.lines && Prints([g]) == g.printed
  {
    assert [g][1..] == [];
  }

  lemma TextGroupIs(pending: seq<string>, width: int)
    ensures Sources(TextGroup(pending, width)) == pending && Prints(TextGroup(pending, width)) == Paragraph(Trimmed(pending), width)
  {
    if pending != [] {
      OneGroup(TextGroup(pending, width)[0]);
    }
  }

  lemma TrimmedAppend(lines: seq<string>, line: string)
    ensures Trimmed(lines + [line]) == Trimmed(lines) + [Trim(line)]
  {
    hide Trim;
  }

  /** One more group between what is pending and the rest. */
  lemma AroundOne(pending: seq<string>, g: Group, rest: seq<Group>, width: int)
    ensures Sources(TextGroup(pending, width) + ([g] + rest)) == pending + (g.lines + Sources(rest))
    ensures Prints(TextGroup(pending, width) + ([g] + rest)) == Paragraph(Trimmed(pending), width) + (g.printed + Prints(rest))
  {
    hide TextGroup, Paragraph, Trimmed;
    TextGroupIs(pending, width);
    OneGroup(g);
    SourcesAppend([g], rest);
    SourcesAppend(TextGroup(pending, width), [g] + rest);
  }

  lemma {:induction false} GroupedIsWrapped(lines: seq<string>, pending: seq<string>, width: int)
    ensures Sources(Grouped(lines, pending, width)) == pending + lines
    ensures Prints(Grouped(lines, pending, width)) == WrapLines(lines, Trimmed(pending), width)
  {
    hide Trim, MarkerLength, Paragraph, Bullet, TextGroup, Sources, Prints, Trimmed;
    TextGroupIs(pending, width);
    if lines != [] {
      var line := lines[0];
      assert lines == [line] + lines[1..];
      if IsText(line) {
        GroupedIsWrapped(lines[1..], pending + [line], width);
        TrimmedAppend(pending, line);
        Associative(pending, [line], lines[1..]);
      } else {
        var g := Group([line], if IsBlank(line) then [""] else Bullet(line, width));
        var rest := Grouped(lines[1..], [], width);
        GroupedIsWrapped(lines[1..], [], width);
        AroundOne(pending, g, rest, width);
        NothingTrimmed();
        assert [] + lines[1..] == lines[1..];
        Associative(Paragraph(Trimmed(pending), width), g.printed, Prints(rest));
      }
    } else {
      assert pending + [] == pending;
    }
  }

  lemma NothingTrimmed()
    ensures Trimmed([]) == []
  {
  }

  lemma {:induction false} TrimmedWords(lines: seq<string>)
    ensures LineWords(Trimmed(lines)) == LineWords(lines)
  {
    hide WordsOf, Trim;
    if lines != [] {
      TrimKeepsWords(lines[0]);
      TrimmedWords(lines[1..]);
      assert Trimmed(lines)[1..] == Trimmed(lines[1..]);
    }
  }

  lemma WordsAreMarked(words: seq<string>)
    requires AreWords(words)
    ensures AreMarked(words)
  {
    forall i | 0 <= i < |words|
      ensures Marked(words[i])
    {
      assert IsWord(words[i]);
    }
  }

  lemma PrintedParagraph(pending: seq<string>, width: int)
    requires pending != [] && forall i | 0 <= i < |pending| :: IsText(pending[i])
    ensures IsPrintedText(pending, Paragraph(Trimmed(pending), width))
  {
    hide Trim, MarkerLength, Marked, Pieces, WordsOf, Greedy;
    var paragraph := Trimmed(pending);
    forall i | 0 <= i < |pending|
      ensures Marked(paragraph[i])
    {
      assert IsText(pending[i]);
      TrimMarked(pending[i]);
    }
    ParagraphWords(paragraph, width);
    TrimmedWords(pending);
    ParagraphIsShortest(paragraph, width, []);
    JoinMarked(paragraph);
    MarkedPieces(Join(paragraph, " "));
    var words := WordsOf(Join(paragraph, " "));
    var lines := Greedy(words, [], width);
    GreedyWords(words, [], width);
    forall i | 0 <= i < |lines|
      ensures Marked(Sentences(lines)[i])
    {
      assert LegalLine(lines[i], width);
      WordsAreMarked(lines[i]);
      JoinMarked(lines[i]);
    }
    FirstPieceExists(Trim(Join(paragraph, " ")));
    assert lines != [];
  }

  // -------------------------------------------------------------------- items

  /** The pieces of what follows a marker: words, but perhaps an empty one first. */
  lemma PiecesAfterMarker(s: string)
    requires s != "" && !IsSpace(s[|s| - 1])
    ensures var pieces := Pieces(s); pieces != [] && AreWords(pieces[1..]) && SpaceFree(pieces[0])
  {
    hide IsSpace;
    if !IsSpace(s[0]) {
      hide Pieces;
      NonBlankPieces(s);
      FirstPieceExists(s);
      assert IsWord(Pieces(s)[0]);
      TailsAreWords(Pieces(s));
    } else {
      SpaceFirst(s);
      var m := LeadingSpaces(s);
      hide Pieces;
      NonBlankPieces(s[m..]);
      assert ([""] + Pieces(s[m..]))[1..] == Pieces(s[m..]);
    }
  }

  lemma TailsAreWords(words: seq<string>)
    requires words != [] && AreWords(words)
    ensures AreWords(words[1..])
  {
    forall i | 0 <= i < |words| - 1
      ensures IsWord(words[1..][i])
    {
      assert IsWord(words[i + 1]);
    }
  }

  lemma SpaceFirst(s: string)
    requires s != "" && IsSpace(s[0]) && !IsSpace(s[|s| - 1])
    ensures var m := LeadingSpaces(s); 0 < m < |s| && Marked(s[m..]) && Pieces(s) == [""] + Pieces(s[m..])
  {
    hide IsSpace;
    assert s[0..] == s && RunLength(s) == 0 && s[..0] == "";
  }

  predicate Continuations(printed: seq<string>, n: nat) {
    forall i | 0 < i < |printed| :: Blanks(n) <= printed[i] && |printed[i]| > n && !IsSpace(printed[i][n])
  }

  lemma {:induction false} BulletLinesLayout(words: seq<string>, current: string, marker: string, width: int)
    requires current != "" && (current == marker && words != [] ==> AreWords(words[1..]))
    requires current != marker ==> AreWords(words)
    requires marker <= current || (Blanks(|marker|) <= current && |current| > |marker| && !IsSpace(current[|marker|]))
    ensures var printed := BulletLines(words, current, marker, width);
      && printed != [] && current <= printed[0] && Continuations(printed, |marker|)
  {
    hide IsSpace;
    if words != [] {
      var w, rest := words[0], words[1..];
      if current == marker {
        BulletLinesLayout(rest, current + w, marker, width);
      } else if |current| + 1 + |w| > width {
        assert IsWord(w);
        assert AreWords(rest);
        var next := Blanks(|marker|) + w;
        assert next[|marker|] == w[0];
        BulletLinesLayout(rest, next, marker, width);
        var tail := BulletLines(rest, next, marker, width);
        var printed := [current] + tail;
        forall i | 0 < i < |printed|
          ensures Blanks(|marker|) <= printed[i] && |printed[i]| > |marker| && !IsSpace(printed[i][|marker|])
        {
          assert printed[i] == tail[i - 1];
        }
      } else {
        assert AreWords(rest);
        BulletLinesLayout(rest, current + " " + w, marker, width);
      }
    }
  }

  /** Trimming an item leaves its marker, or the marker is all there is. */
  lemma ItemStart(line: string)
    requires IsItem(line)
    ensures var n := MarkerLength(line); var t := Trim(line);
      && t <= line && n >= 2 && |t| >= n - 1 && !IsSpace(line[n - 2]) && !IsSpace(line[0])
      && t != "" && !IsSpace(t[|t| - 1])
      && (|t| > n ==> MarkerLength(t) == n) && |t| != n
      && (|t| == n - 1 ==> t == Trim(line[..n]))
  {
    var n := MarkerLength(line);
    MarkerCharacters(line);
    TrimStartUnique(line, 0);
    var t := Trim(line);
    assert t == TrimEnd(line) && t <= line;
    if |t| > n {
      MarkerStays(line, t[n..]);
      assert line[..n] + t[n..] == t;
    }
    if |t| == n - 1 {
      TrimStartUnique(line[..n], 0);
      TrimEndUnique(line[..n], n - 1);
    }
  }

  lemma MarkerCharacters(line: string)
    requires MarkerLength(line) > 0
    ensures var n := MarkerLength(line); n >= 2 && !IsSpace(line[n - 2]) && !IsSpace(line[0]) && IsSpace(line[n - 1])
  {
  }

  lemma PrintedBullet(line: string, width: nat)
    requires IsItem(line)
    ensures IsPrintedItem(line, Bullet(line, width))
  {
    hide WordsOf, BulletLines, Pieces, Trim, MarkerLength, IsSpace;
    var n, t := MarkerLength(line), Trim(line);
    var printed := Bullet(line, width);
    ItemStart(line);
    BulletKeepsWords(line, width);
    if |t| > width {
      if |t| > n {
        PiecesAfterMarker(t[n..]);
        BulletLinesLayout(Pieces(t[n..]), t[..n], t[..n], width);
      } else {
        BareMarker(line);
        LongMarker(t, width);
      }
    }
  }

  /** A marker with nothing after it is no marker once the white space is gone. */
  lemma BareMarker(line: string)
    requires IsItem(line) && |Trim(line)| == MarkerLength(line) - 1
    ensures MarkerLength(Trim(line)) == 0 && SpaceFree(Trim(line)) && Trim(line) != ""
  {
    var n, t := MarkerLength(line), Trim(line);
    ItemStart(line);
    assert t == line[..n - 1];
    if DigitRun(line) + 2 == n {
      DigitRunOf(t, n - 2);
    }
  }

  lemma {:induction false} DigitRunOf(s: string, d: nat)
    requires d < |s| && (forall i | 0 <= i < d :: IsDigit(s[i])) && !IsDigit(s[d])
    ensures DigitRun(s) == d
  {
    if d > 0 {
      DigitRunOf(s[1..], d - 1);
    }
  }

  /** A marker too long for the width and nothing after it. */
  lemma LongMarker(t: string, width: nat)
    requires t != "" && SpaceFree(t)
    ensures BulletLines(Pieces(t[0..]), t[..0], t[..0], width) == [t]
  {
    assert t[0..] == t && RunLength(t) == |t| && Pieces(t) == [t];
    assert [t][1..] == [] && "" + t == t;
  }

  // ------------------------------------------------------------ the whole text

  lemma GroupsAround(before: seq<Group>, g: Group, after: seq<Group>)
    requires AreGroups(before) && IsGroup(g) && !IsTextGroup(g) && AreGroups(after)
    ensures AreGroups(before + ([g] + after))
  {
    hide IsGroup, IsTextGroup;
    var all := before + ([g] + after);
    var n := |before|;
    assert all[n] == g;
    assert forall i | n < i < |all| :: all[i] == after[i - n - 1];
    assert forall i | 0 <= i < n :: all[i] == before[i];
    forall i | 0 <= i < |all| - 1
      ensures !(IsTextGroup(all[i]) && IsTextGroup(all[i + 1]))
    {
      if i > n {
        assert !(IsTextGroup(after[i - n - 1]) && IsTextGroup(after[i - n]));
      } else if i + 1 < n {
        assert !(IsTextGroup(before[i]) && IsTextGroup(before[i + 1]));
      }
    }
  }

  lemma TextGroupIsGroup(pending: seq<string>, width: int)
    requires forall i | 0 <= i < |pending| :: IsText(pending[i])
    ensures AreGroups(TextGroup(pending, width))
  {
    hide Paragraph, IsPrintedText, Trimmed;
    if pending != [] {
      PrintedParagraph(pending, width);
    }
  }

  lemma {:induction false} GroupedAreGroups(lines: seq<string>, pending: seq<string>, width: nat)
    requires forall i | 0 <= i < |pending| :: IsText(pending[i])
    ensures AreGroups(Grouped(lines, pending, width))
  {
    hide IsPrintedText, IsPrintedItem, Trim, MarkerLength, Bullet, Paragraph, TextGroup, AreGroups;
    TextGroupIsGroup(pending, width);
    if lines != [] {
      var line := lines[0];
      if IsText(line) {
        GroupedAreGroups(lines[1..], pending + [line], width);
      } else {
        GroupedAreGroups(lines[1..], [], width);
        var g := Group([line], if IsBlank(line) then [""] else Bullet(line, width));
        if IsItem(line) {
          PrintedBullet(line, width);
        }
        assert g.lines[0] == line;
        GroupsAround(TextGroup(pending, width), g, Grouped(lines[1..], [], width));
      }
    }
  }

  /** Every list of lines is wrapped group by group. */
  lemma WrappingLaysOut(lines: seq<string>, width: nat)
    ensures IsLayout(lines, WrapLines(lines, [], width))
  {
    GroupedIsWrapped(lines, [], width);
    GroupedAreGroups(lines, [], width);
    assert [] + lines == lines && Trimmed([]) == [];
  }

  // --------------------------------------------------------- no line feeds inside

  predicate NoLineFeeds(lines: seq<string>) {
    SepFree(lines, '\n')
  }

  lemma ParagraphPlain(paragraph: seq<string>, width: int)
    requires AreMarked(paragraph)
    ensures NoLineFeeds(Paragraph(paragraph, width))
  {
    hide Marked, WordsOf, Greedy;
    if paragraph != [] {
      ParagraphIsShortest(paragraph, width, []);
      JoinMarked(paragraph);
      MarkedPieces(Join(paragraph, " "));
      var words := WordsOf(Join(paragraph, " "));
      GreedyWords(words, [], width);
      var lines := Greedy(words, [], width);
      forall i | 0 <= i < |lines|
        ensures '\n' !in Sentences(lines)[i]
      {
        WordsPlain(lines[i]);
        JoinPlain(lines[i]);
      }
    }
  }

  lemma WordsPlain(words: seq<string>)
    requires AreWords(words)
    ensures forall i | 0 <= i < |words| :: '\n' !in words[i]
  {
    forall i | 0 <= i < |words|
      ensures '\n' !in words[i]
    {
      assert IsWord(words[i]) && IsSpace('\n');
    }
  }

  lemma {:induction false} BulletLinesPlain(words: seq<string>, current: string, marker: string, width: int)
    requires NoLineFeeds(words) && '\n' !in current
    ensures NoLineFeeds(BulletLines(words, current, marker, width))
  {
    if words != [] {
      var w := words[0];
      if current == marker {
        BulletLinesPlain(words[1..], current + w, marker, width);
      } else if |current| + 1 + |w| > width {
        BulletLinesPlain(words[1..], Blanks(|marker|) + w, marker, width);
      } else {
        BulletLinesPlain(words[1..], current + " " + w, marker, width);
      }
    }
  }

  lemma BulletPlain(line: string, width: int)
    requires '\n' !in line
    ensures NoLineFeeds(Bullet(line, width))
  {
    hide Trim, MarkerLength, BulletLines, Pieces;
    TrimPlain(line);
    var trimmed := Trim(line);
    if |trimmed| > width {
      var n := MarkerLength(trimmed);
      PiecesPlain(trimmed[n..]);
      BulletLinesPlain(Pieces(trimmed[n..]), trimmed[..n], trimmed[..n], width);
    }
  }

  lemma {:induction false} WrapLinesPlain(lines: seq<string>, paragraph: seq<string>, width: int)
    requires NoLineFeeds(lines) && AreMarked(paragraph)
    ensures NoLineFeeds(WrapLines(lines, paragraph, width))
  {
    hide Trim, MarkerLength, Bullet, Paragraph, Marked;
    ParagraphPlain(paragraph, width);
    if lines != [] {
      if Trim(lines[0]) == "" {
        WrapLinesPlain(lines[1..], [], width);
      } else if MarkerLength(lines[0]) > 0 {
        BulletPlain(lines[0], width);
        WrapLinesPlain(lines[1..], [], width);
      } else {
        TrimMarked(lines[0]);
        WrapLinesPlain(lines[1..], paragraph + [Trim(lines[0])], width);
      }
    }
  }

  // ---------------------------------------------------------- lines of the body

  /** The lines from the first one on that is not blank. */
  function Remaining(lines: seq<string>): seq<string> {
    if lines != [] && IsBlank(lines[0]) then Remaining(lines[1..]) else lines
  }

  /** A carriage return at the end of a line is taken for half of a line end. */
  function WithoutReturn(line: string): string {
    if line != "" && line[|line| - 1] == '\r' then line[..|line| - 1] else line
  }

  function WithoutReturns(lines: seq<string>): (r: seq<string>)
    ensures |r| == |lines| && forall i | 0 <= i < |r| :: r[i] == WithoutReturn(lines[i])
  {
    if lines == [] then [] else [WithoutReturn(lines[0])] + WithoutReturns(lines[1..])
  }

  /** The body of the message, line by line. */
  function BodyLines(lines: seq<string>): seq<string>
    requires lines != []
  {
    WithoutReturns([TrimStart(lines[0])] + lines[1..])
  }

  lemma {:induction false} SplitLinesAt(a: string, b: string)
    requires '\n' !in a
    ensures SplitLines(a + ['\n'] + b) == [WithoutReturn(a)] + SplitLines(b)
  {
    var s := a + ['\n'] + b;
    if a == "" {
      assert s[1..] == b;
    } else if a == "\r" {
      assert s[2..] == b;
    } else {
      SplitLinesAt(a[1..], b);
      assert s[0] == a[0] && s[1..] == a[1..] + ['\n'] + b;
      assert |a| > 1 ==> s[1] == a[1];
      var rest := SplitLines(s[1..]);
      assert rest[0] == WithoutReturn(a[1..]) && rest[1..] == SplitLines(b);
      assert [a[0]] + WithoutReturn(a[1..]) == WithoutReturn(a);
    }
  }

  lemma {:induction false} SplitLinesOne(a: string)
    requires '\n' !in a
    ensures SplitLines(a) == [a]
  {
    if a != "" {
      SplitLinesOne(a[1..]);
      assert [a[0]] + a[1..] == a;
    }
  }

  lemma {:induction false} SplitLinesJoin(lines: seq<string>)
    requires lines != [] && NoLineFeeds(lines) && WithoutReturn(lines[|lines| - 1]) == lines[|lines| - 1]
    ensures SplitLines(Join(lines, "\n")) == WithoutReturns(lines)
  {
    if |lines| == 1 {
      SplitLinesOne(lines[0]);
    } else {
      assert NoLineFeeds(lines[1..]);
      SplitLinesJoin(lines[1..]);
      SplitLinesAt(lines[0], Join(lines[1..], "\n"));
    }
  }

  predicate EndsInAMark(s: string) {
    s != "" && !IsSpace(s[|s| - 1])
  }

  lemma {:induction false} LastLine(s: string)
    requires EndsInAMark(s)
    ensures EndsInAMark(SplitLines(s)[|SplitLines(s)| - 1])
    decreases |s|
  {
    if s[0] == '\n' {
      assert |s| > 1;
      LastLine(s[1..]);
    } else if s[0] == '\r' && |s| > 1 && s[1] == '\n' {
      assert |s| > 2;
      LastLine(s[2..]);
    } else if |s| > 1 {
      LastLine(s[1..]);
    } else {
      assert s[1..] == "";
    }
  }

  lemma {:induction false} RemainingIs(lines: seq<string>)
    ensures Body(lines) == Trim(Join(Remaining(lines), "\n"))
    ensures Remaining(lines) != [] ==> !IsBlank(Remaining(lines)[0])
    ensures |Remaining(lines)| <= |lines| && Remaining(lines) == lines[|lines| - |Remaining(lines)|..]
  {
    hide Trim, Join;
    if lines != [] && IsBlank(lines[0]) {
      RemainingIs(lines[1..]);
    }
  }

  lemma JoinEnds(lines: seq<string>)
    requires lines != [] && EndsInAMark(lines[|lines| - 1])
    ensures EndsInAMark(Join(lines, "\n"))
  {
    if |lines| > 1 {
      JoinEnds(lines[1..]);
    }
  }

  /** Trimming the joined lines trims only the start of the first. */
  lemma TrimJoined(lines: seq<string>)
    requires lines != [] && !IsBlank(lines[0]) && EndsInAMark(lines[|lines| - 1])
    ensures Trim(Join(lines, "\n")) == Join([TrimStart(lines[0])] + lines[1..], "\n")
    ensures Trim(Join(lines, "\n")) != ""
  {
    hide IsSpace, Join, LeadingSpaces, TrimEnd, TrimStart, EndsInAMark;
    var first := lines[0];
    var trimmed := [TrimStart(first)] + lines[1..];
    NotBlankStarts(first);
    StartOfJoin(lines, LeadingSpaces(first));
    LastOfTrimmed(lines);
    JoinEnds(trimmed);
    var t := Join(trimmed, "\n");
    MarkedEnd(t);
  }

  lemma MarkedEnd(t: string)
    requires EndsInAMark(t)
    ensures TrimEnd(t) == t && t != ""
  {
  }

  lemma NotBlankStarts(line: string)
    requires !IsBlank(line)
    ensures LeadingSpaces(line) < |line|
  {
  }

  lemma StartOfJoin(lines: seq<string>, n: nat)
    requires lines != [] && n == LeadingSpaces(lines[0]) < |lines[0]|
    ensures TrimStart(Join(lines, "\n")) == Join([TrimStart(lines[0])] + lines[1..], "\n")
  {
    hide IsSpace;
    var s, first := Join(lines, "\n"), lines[0];
    var trimmed := [TrimStart(first)] + lines[1..];
    assert trimmed[1..] == lines[1..] && first <= s;
    TrimStartUnique(s, n);
    assert s[n..] == Join(trimmed, "\n");
  }

  lemma LastOfTrimmed(lines: seq<string>)
    requires lines != [] && EndsInAMark(lines[|lines| - 1])
    ensures var trimmed := [TrimStart(lines[0])] + lines[1..]; EndsInAMark(trimmed[|trimmed| - 1])
  {
    TrimmedStart(lines[0]);
  }

  /** What is wrapped are the summary's remaining lines. */
  lemma BodyIsLines(lines: seq<string>)
    requires NoLineFeeds(lines) && (lines != [] ==> EndsInAMark(lines[|lines| - 1]))
    ensures var rest := Remaining(lines);
      if rest == [] then Body(lines) == ""
      else Body(lines) != "" && SplitLines(Body(lines)) == BodyLines(rest) && NoLineFeeds(BodyLines(rest))
  {
    hide IsSpace, Trim, TrimStart, Body, Join, SplitLines, EndsInAMark, NoLineFeeds, WithoutReturn, WithoutReturns;
    var rest := Remaining(lines);
    RemainingIs(lines);
    if rest == [] {
      TrimOfNothing();
    } else {
      RestIsPlain(lines, |lines| - |rest|);
      TrimJoined(rest);
      LastStays(rest);
      SplitLinesJoin([TrimStart(rest[0])] + rest[1..]);
    }
  }

  lemma RestIsPlain(lines: seq<string>, n: nat)
    requires n < |lines| && NoLineFeeds(lines)
    ensures var rest := lines[n..]; var trimmed := [TrimStart(rest[0])] + rest[1..];
      rest[|rest| - 1] == lines[|lines| - 1] && NoLineFeeds(trimmed) && NoLineFeeds(WithoutReturns(trimmed))
  {
    hide TrimStart, WithoutReturn;
    var rest := lines[n..];
    var trimmed := [TrimStart(rest[0])] + rest[1..];
    TrimmedStart(rest[0]);
    forall i | 0 <= i < |trimmed|
      ensures '\n' !in trimmed[i] && '\n' !in WithoutReturn(trimmed[i])
    {
      assert i > 0 ==> trimmed[i] == lines[n + i];
      ReturnIsNoLineFeed(trimmed[i]);
    }
  }

  lemma ReturnIsNoLineFeed(line: string)
    requires '\n' !in line
    ensures '\n' !in WithoutReturn(line)
  {
  }

  lemma TrimOfNothing()
    ensures Trim(Join([], "\n")) == ""
  {
  }

  lemma TrimmedStart(line: string)
    ensures forall c :: c !in line ==> c !in TrimStart(line)
    ensures EndsInAMark(line) ==> EndsInAMark(TrimStart(line))
  {
  }

  lemma LastStays(lines: seq<string>)
    requires lines != [] && EndsInAMark(lines[|lines| - 1])
    ensures var trimmed := [TrimStart(lines[0])] + lines[1..];
      WithoutReturn(trimmed[|trimmed| - 1]) == trimmed[|trimmed| - 1]
  {
    hide TrimStart;
    TrimmedStart(lines[0]);
    assert IsSpace('\r');
  }

  // ---------------------------------------------------------------- the message

  /** The part of a message after its first line. */
  ghost predicate BodyIs(message: string, rest: seq<string>) {
    var shown := Split(message, '\n');
    if rest == [] then |shown| == 1
    else (
      && |shown| >= 2 && shown[1] == "" && IsLayout(BodyLines(rest), shown[2..])
      && forall i | 2 <= i < |shown| :: FitsOrOneWord(shown[i], 72))
  }

  /** Every message is its first line alone or goes on with one empty line and the summary's
      remaining lines in groups: each blank line between others stays an empty line, each
      item starts a line of its own with its marker, only lines of one paragraph are joined,
      and every line is at most 72 long or holds one word. */
  lemma MessageIsLaidOut(labels: set<string>, issue: nat, stripped: string, verbs: string -> Option<string>)
    requires forall w :: verbs(w).Some? ==> '\n' !in verbs(w).value
    ensures var m := Message(labels, issue, stripped, verbs);
      m.Returned? ==> BodyIs(m.value, Remaining(SplitLines(Trim(stripped))[1..]))
  {
    hide SplitLines, Trim, Imperative, Chosen, FirstLine, Wrapped, Body, Join, FirstLineIs, NoDots, BodyIs, Subject;
    var lines := SplitLines(Trim(stripped));
    SplitLinesPlain(Trim(stripped));
    ChosenIsOneLine(lines[0], issue);
    ImperativeIsOneLine(Chosen(lines[0], issue), verbs);
    var full := FullSubject(lines[0], issue, verbs);
    if full.Returned? {
      assert full.value <= Imperative(Chosen(lines[0], issue), verbs).value;
      LastSummaryLine(stripped);
      FirstLinePlain(labels, full.value);
      BodyFollowsFirst(FirstLine(labels, full.value), lines[1..]);
    }
  }

  lemma LastSummaryLine(stripped: string)
    ensures var lines := SplitLines(Trim(stripped)); |lines| > 1 ==> EndsInAMark(lines[|lines| - 1])
  {
    hide IsSpace;
    var t := Trim(stripped);
    if t != "" {
      TrimMarked(stripped);
      LastLine(t);
    }
  }

  lemma FirstLinePlain(labels: set<string>, full: string)
    requires '\n' !in full
    ensures '\n' !in FirstLine(labels, full)
  {
    hide Subject, PrefixText;
    PrefixIsShort(labels);
    SubjectFits(labels, full);
  }

  lemma BodyFollowsFirst(first: string, lines: seq<string>)
    requires '\n' !in first && NoLineFeeds(lines) && (lines != [] ==> EndsInAMark(lines[|lines| - 1]))
    ensures var body := Body(lines);
      BodyIs(if body == "" then first else first + "\n\n" + Join(Wrapped(body, HARD_MAX), "\n"), Remaining(lines))
  {
    hide SplitLines, Body, Join, Split, WrapLines, IsLayout, IsSpace, WithoutReturns, BodyLines, EndsInAMark, Remaining, NoLineFeeds, FitsOrOneWord;
    BodyIsLines(lines);
    var body := Body(lines);
    if body == "" {
      SplitOfPlain(first, '\n');
    } else {
      var source := BodyLines(Remaining(lines));
      var printed := WrapLines(source, [], HARD_MAX);
      assert Wrapped(body, HARD_MAX) == printed;
      assert source != [];
      WrapLinesPlain(source, [], HARD_MAX);
      WrappingLaysOut(source, HARD_MAX);
      WrapLinesFit(source, [], HARD_MAX);
      PrintedIsNotEmpty(source);
      SplitMessage(first, printed);
      assert ([first, ""] + printed)[2..] == printed;
    }
  }

  lemma SplitMessage(first: string, printed: seq<string>)
    requires '\n' !in first && printed != [] && NoLineFeeds(printed)
    ensures Split(first + "\n\n" + Join(printed, "\n"), '\n') == [first, ""] + printed
  {
    hide Split, Join;
    var text := Join(printed, "\n");
    SplitJoin(printed, '\n');
    assert first + "\n\n" + text == first + ['\n'] + ("" + ['\n'] + text);
    SplitAtSep("", '\n', text);
    SplitAtSep(first, '\n', "" + ['\n'] + text);
    assert [first] + ([""] + printed) == [first, ""] + printed;
  }

  lemma PrintedIsNotEmpty(lines: seq<string>)
    requires lines != []
    ensures WrapLines(lines, [], HARD_MAX) != []
  {
    hide IsPrintedText, IsPrintedItem, IsTextGroup, Prints, Sources;
    WrappingLaysOut(lines, HARD_MAX);
    var groups :| AreGroups(groups) && Sources(groups) == lines && Prints(groups) == WrapLines(lines, [], HARD_MAX);
    SomethingIsPrinted(groups);
  }

  lemma SomethingIsPrinted(groups: seq<Group>)
    requires AreGroups(groups) && Sources(groups) != []
    ensures Prints(groups) != []
  {
    assert IsGroup(groups[0]);
  }

  // -------------------------------------------------------------------- markers

  /** The lines that start an item: with `-`, `*` or `+`, or with a number and a full stop,
      and white space after it. */
  lemma MarkersAre(c: char, n: nat, space: char, rest: string)
    requires c in {'-', '*', '+'} && IsSpace(space)
    ensures MarkerLength([c, space] + rest) == 2
    ensures MarkerLength(Decimal(n) + ['.', space] + rest) == |Decimal(n)| + 2
  {
    var s := Decimal(n) + ['.', space] + rest;
    assert s[|Decimal(n)|] == '.' && s[|Decimal(n)| + 1] == space;
    DigitRunOf(s, |Decimal(n)|);
    assert IsDigit(s[0]);
  }
}
