/** What block scalars in a SKILL.md file mean: how `>` folds lines and what the
    chomping marks leave at the end (src/skills/repo-skill-service.ts, parseBlockScalar). */
module SkillFolding {
  import opened Wrappers
  import opened Text
  import opened SkillFile
  import opened SkillRoundTrip

  /** A paragraph of a block: lines that are not empty. */
  predicate IsParagraph(lines: seq<string>) {
    lines != [] && forall i | 0 <= i < |lines| :: lines[i] != "" && '\n' !in lines[i]
  }

  /** `gaps[i]` empty lines stand before paragraph `i` and the last gap after all of them:
      between two paragraphs there is at least one. */
  predicate IsLayout(paragraphs: seq<seq<string>>, gaps: seq<nat>) {
    && |gaps| == |paragraphs| + 1
    && (forall i | 0 <= i < |paragraphs| :: IsParagraph(paragraphs[i]))
    && (forall i | 0 < i < |paragraphs| :: gaps[i] > 0)
  }

  function Empties(n: nat): (lines: seq<string>)
    ensures |lines| == n && forall i | 0 <= i < n :: lines[i] == ""
  {
    seq(n, _ => "")
  }

  function Written(paragraphs: seq<seq<string>>, gaps: seq<nat>): seq<string>
    requires IsLayout(paragraphs, gaps)
  {
    if paragraphs == [] then Empties(gaps[0])
    else Empties(gaps[0]) + (paragraphs[0] + Written(paragraphs[1..], gaps[1..]))
  }

  /** Each paragraph on one line. */
  function Sentences(paragraphs: seq<seq<string>>): (r: seq<string>)
    ensures |r| == |paragraphs| && forall i | 0 <= i < |r| :: r[i] == Join(paragraphs[i], " ")
  {
    if paragraphs == [] then [] else [Join(paragraphs[0], " ")] + Sentences(paragraphs[1..])
  }

  // ------------------------------------------------------------------ folding

  lemma {:induction false} SkipEmpties(n: nat, rest: seq<string>)
    ensures Paragraphs(Empties(n) + rest, []) == Paragraphs(rest, [])
  {
    if n == 0 {
      assert Empties(0) + rest == rest;
    } else {
      SkipEmpties(n - 1, rest);
      assert (Empties(n) + rest)[1..] == Empties(n - 1) + rest;
    }
  }

  lemma {:induction false} Collect(lines: seq<string>, rest: seq<string>, current: seq<string>)
    requires forall i | 0 <= i < |lines| :: lines[i] != ""
    ensures Paragraphs(lines + rest, current) == Paragraphs(rest, current + lines)
  {
    if lines == [] {
      assert lines + rest == rest && current + lines == current;
    } else {
      Collect(lines[1..], rest, current + [lines[0]]);
      assert (lines + rest)[1..] == lines[1..] + rest;
      assert current + [lines[0]] + lines[1..] == current + lines;
    }
  }

  lemma {:induction false} ParagraphsOfWritten(paragraphs: seq<seq<string>>, gaps: seq<nat>)
    requires IsLayout(paragraphs, gaps)
    ensures Paragraphs(Written(paragraphs, gaps), []) == Sentences(paragraphs)
  {
    if paragraphs == [] {
      SkipEmpties(gaps[0], []);
      assert Empties(gaps[0]) + [] == Empties(gaps[0]);
    } else {
      var first, rest := paragraphs[0], Written(paragraphs[1..], gaps[1..]);
      SkipEmpties(gaps[0], first + rest);
      Collect(first, rest, []);
      assert [] + first == first;
      ParagraphsOfWritten(paragraphs[1..], gaps[1..]);
      assert rest == [] || rest[0] == "";
    }
  }

  lemma {:induction false} WrittenPlain(paragraphs: seq<seq<string>>, gaps: seq<nat>)
    requires IsLayout(paragraphs, gaps)
    ensures SepFree(Written(paragraphs, gaps), '\n')
  {
    if paragraphs != [] {
      WrittenPlain(paragraphs[1..], gaps[1..]);
      assert IsParagraph(paragraphs[0]);
    }
  }

  /** Every list of lines is a layout of paragraphs, so what folding does to layouts is what
      it does to every text. */
  lemma {:induction false} EveryTextIsWritten(lines: seq<string>)
    requires SepFree(lines, '\n')
    ensures exists paragraphs, gaps :: IsLayout(paragraphs, gaps) && Written(paragraphs, gaps) == lines
  {
    if lines == [] {
      assert IsLayout([], [0]) && Written([], [0]) == lines;
    } else {
      var rest := lines[1..];
      EveryTextIsWritten(rest);
      var ps, gs :| IsLayout(ps, gs) && Written(ps, gs) == rest;
      if lines[0] == "" {
        OneMoreEmpty(ps, gs);
        assert [""] + rest == lines;
      } else {
        OneMoreLine(lines[0], ps, gs);
        assert [lines[0]] + rest == lines;
      }
    }
  }

  lemma OneMoreEmpty(ps: seq<seq<string>>, gs: seq<nat>)
    requires IsLayout(ps, gs)
    ensures var gaps := gs[0 := gs[0] + 1];
      IsLayout(ps, gaps) && Written(ps, gaps) == [""] + Written(ps, gs)
  {
    var gaps := gs[0 := gs[0] + 1];
    assert gaps[1..] == gs[1..];
    assert Empties(gs[0] + 1) == [""] + Empties(gs[0]);
  }

  lemma OneMoreLine(line: string, ps: seq<seq<string>>, gs: seq<nat>)
    requires IsLayout(ps, gs) && line != "" && '\n' !in line
    ensures exists paragraphs, gaps :: IsLayout(paragraphs, gaps) && Written(paragraphs, gaps) == [line] + Written(ps, gs)
  {
    hide Written;
    if ps != [] && gs[0] == 0 {
      LongerParagraph(line, ps, gs);
    } else {
      NewParagraph(line, ps, gs);
    }
  }

  lemma LongerParagraph(line: string, ps: seq<seq<string>>, gs: seq<nat>)
    requires IsLayout(ps, gs) && line != "" && '\n' !in line && ps != [] && gs[0] == 0
    ensures var paragraphs := [[line] + ps[0]] + ps[1..];
      IsLayout(paragraphs, gs) && Written(paragraphs, gs) == [line] + Written(ps, gs)
  {
    var paragraphs := [[line] + ps[0]] + ps[1..];
    LongerLayout(line, ps, gs);
    hide IsLayout, Written;
    FirstWritten(ps, gs);
    FirstWritten(paragraphs, gs);
    assert paragraphs[1..] == ps[1..];
  }

  lemma LongerLayout(line: string, ps: seq<seq<string>>, gs: seq<nat>)
    requires IsLayout(ps, gs) && line != "" && '\n' !in line && ps != []
    ensures IsLayout([[line] + ps[0]] + ps[1..], gs)
  {
    var paragraphs := [[line] + ps[0]] + ps[1..];
    hide IsParagraph;
    assert IsParagraph(ps[0]);
    LongerIsParagraph(line, ps[0]);
    forall i | 0 <= i < |paragraphs|
      ensures IsParagraph(paragraphs[i])
    {
      assert i > 0 ==> paragraphs[i] == ps[i];
    }
  }

  lemma LongerIsParagraph(line: string, lines: seq<string>)
    requires IsParagraph(lines) && line != "" && '\n' !in line
    ensures IsParagraph([line] + lines)
  {
  }

  lemma FirstWritten(ps: seq<seq<string>>, gs: seq<nat>)
    requires IsLayout(ps, gs) && ps != [] && gs[0] == 0
    ensures IsLayout(ps[1..], gs[1..]) && Written(ps, gs) == ps[0] + Written(ps[1..], gs[1..])
  {
  }

  lemma NewParagraph(line: string, ps: seq<seq<string>>, gs: seq<nat>)
    requires IsLayout(ps, gs) && line != "" && '\n' !in line && (ps != [] ==> gs[0] > 0)
    ensures var paragraphs, gaps := [[line]] + ps, [0] + gs;
      IsLayout(paragraphs, gaps) && Written(paragraphs, gaps) == [line] + Written(ps, gs)
  {
    var paragraphs, gaps := [[line]] + ps, [0] + gs;
    assert IsParagraph(paragraphs[0]);
    assert paragraphs[1..] == ps && gaps[1..] == gs;
    assert Empties(0) + ([line] + Written(ps, gs)) == [line] + Written(ps, gs);
  }

  lemma SplitOfJoined(lines: seq<string>)
    requires SepFree(lines, '\n')
    ensures Split(Join(lines, "\n"), '\n') == if lines == [] then [""] else lines
  {
    if lines != [] {
      SplitJoin(lines, '\n');
    }
  }

  /** A folded block reads as its paragraphs, the lines of each joined by single blanks,
      with exactly one empty line between paragraphs, however many empty lines stood there. */
  lemma FoldingJoinsParagraphs(paragraphs: seq<seq<string>>, gaps: seq<nat>)
    requires IsLayout(paragraphs, gaps)
    ensures BlockValue(Join(Written(paragraphs, gaps), "\n"), ">") == Join(Sentences(paragraphs), "\n\n")
  {
    var lines := Written(paragraphs, gaps);
    WrittenPlain(paragraphs, gaps);
    ParagraphsOfWritten(paragraphs, gaps);
    SplitOfJoined(lines);
    assert Paragraphs([""], []) == Paragraphs([], []);
  }

  /** What the marks do to the end of a block: `+` adds a line feed, `-` takes the white space
      away, and without one the text stays; a literal block keeps its text. */
  lemma ChompingEndsTheText(raw: string, folded: bool)
    ensures var text := BlockValue(raw, if folded then ">" else "|");
      var stripped := BlockValue(raw, if folded then ">-" else "|-");
      && BlockValue(raw, if folded then ">+" else "|+") == text + "\n"
      && stripped <= text && AllSpace(text[|stripped|..]) && (stripped != "" ==> !IsSpace(stripped[|stripped| - 1]))
      && (!folded ==> text == raw)
  {
    hide Split, Join, Paragraphs;
    JoinSplit(raw, '\n');
  }

  // --------------------------------------------------------------- whole files

  /** The lines of a block below a key: indented, but for the empty ones. */
  function Nested(lines: seq<string>): (r: seq<string>)
    ensures |r| == |lines| && forall i | 0 <= i < |r| :: r[i] == if lines[i] == "" then "" else "  " + lines[i]
  {
    if lines == [] then [] else [if lines[0] == "" then "" else "  " + lines[0]] + Nested(lines[1..])
  }

  /** A file whose description is a block. */
  function FileWithBlock(name: string, indicator: string, lines: seq<string>, body: string): string {
    "---" + ("\nname: " + name + "\n" + DescriptionBlock(indicator, lines) + "\n") + "---" + ("\n\n" + body)
  }

  function DescriptionBlock(indicator: string, lines: seq<string>): string {
    "description: " + indicator + "\n" + Join(Nested(lines), "\n")
  }

  /** The block is more than its indentation: some line starts in its first column and the
      last one ends in a mark. */
  predicate IsBlock(lines: seq<string>) {
    && lines != [] && SepFree(lines, '\n')
    && (exists i :: 0 <= i < |lines| && lines[i] != "" && !IsSpace(lines[i][0]))
    && lines[|lines| - 1] != "" && !IsSpace(lines[|lines| - 1][|lines[|lines| - 1]| - 1])
  }

  lemma StripNested(lines: seq<string>)
    requires IsBlock(lines)
    ensures StripIndent(Nested(lines)) == Join(lines, "\n")
  {
    hide Join, Drop;
    NestedCommon(lines);
    var dropped := DropAll(Nested(lines), 2);
    forall i | 0 <= i < |lines|
      ensures dropped[i] == lines[i]
    {
      DropNested(lines[i]);
    }
    assert dropped == lines;
  }

  lemma DropNested(line: string)
    ensures Drop(if line == "" then "" else "  " + line, 2) == line
  {
  }

  lemma {:induction false} NestedCommon(lines: seq<string>)
    requires IsBlock(lines)
    ensures CommonIndent(Nested(lines)) == 2
  {
    hide IsSpace, LeadingSpaces, MinIndent;
    var block := Nested(lines);
    MinIndentMeaning(block);
    forall i | 0 <= i < |lines| && lines[i] != ""
      ensures LeadingSpaces(block[i]) == 2 + LeadingSpaces(lines[i])
    {
      IndentedLine(lines[i]);
    }
    var i :| 0 <= i < |lines| && lines[i] != "" && !IsSpace(lines[i][0]);
    TrimStartUnique(lines[i], 0);
    assert LeadingSpaces(block[i]) == 2;
  }

  lemma LastOfJoin(lines: seq<string>, sep: string)
    requires lines != [] && lines[|lines| - 1] != ""
    ensures var t, last := Join(lines, sep), lines[|lines| - 1];
      t != "" && t[|t| - 1] == last[|last| - 1]
  {
    if |lines| > 1 {
      LastOfJoin(lines[1..], sep);
    }
  }

  lemma BlockEndsInAMark(indicator: string, lines: seq<string>)
    requires IsBlock(lines)
    ensures TrimEnd(DescriptionBlock(indicator, lines)) == DescriptionBlock(indicator, lines)
    ensures DescriptionBlock(indicator, lines) != ""
  {
    hide Join;
    var block := Nested(lines);
    LastOfJoin(block, "\n");
    var t := DescriptionBlock(indicator, lines);
    assert t[..|t|] == t;
    TrimEndUnique(t, |t|);
  }

  lemma BlockLinesAre(indicator: string, lines: seq<string>)
    requires lines != [] && SepFree(lines, '\n') && IsIndicator(indicator)
    ensures Split(DescriptionBlock(indicator, lines), '\n') == ["description: " + indicator] + Nested(lines)
  {
    hide Split, Join;
    var head := "description: " + indicator;
    assert DescriptionBlock(indicator, lines) == head + ['\n'] + Join(Nested(lines), "\n");
    IndicatorIsPlain(indicator);
    SplitAtSep(head, '\n', Join(Nested(lines), "\n"));
    NestedPlain(lines);
    SplitJoin(Nested(lines), '\n');
  }

  lemma IndicatorIsPlain(indicator: string)
    requires IsIndicator(indicator)
    ensures '\n' !in "description: " + indicator
  {
  }

  lemma NestedPlain(lines: seq<string>)
    requires lines != [] && SepFree(lines, '\n')
    ensures SepFree(Nested(lines), '\n') && Nested(lines) != []
  {
    var block := Nested(lines);
    forall i | 0 <= i < |block|
      ensures '\n' !in block[i]
    {
      assert '\n' !in lines[i] && '\n' !in "  ";
    }
  }

  /** The lines of the file's header as the parser sees them. */
  lemma BlockFileLines(name: string, indicator: string, lines: seq<string>)
    requires IsBlock(lines) && IsIndicator(indicator) && '\n' !in name
    ensures Split(TrimEnd("\nname: " + name + "\n" + DescriptionBlock(indicator, lines) + "\n"), '\n')
      == ["", "name: " + name, "description: " + indicator] + Nested(lines)
  {
    hide Split, TrimEnd, Join, DescriptionBlock, IsBlock, IsIndicator;
    var nameLine, yaml := "name: " + name, DescriptionBlock(indicator, lines);
    BlockEndsInAMark(indicator, lines);
    ThreeParts(nameLine, yaml);
    NameLineIs(name);
    SplitOfPlain(nameLine, '\n');
    BlockIsLines(lines);
    BlockLinesAre(indicator, lines);
    Cons("", nameLine, "description: " + indicator, Nested(lines));
  }

  lemma BlockIsLines(lines: seq<string>)
    requires IsBlock(lines)
    ensures lines != [] && SepFree(lines, '\n')
  {
  }

  lemma NameLineIs(name: string)
    ensures "\nname: " + name + "\n" == "\n" + ("name: " + name) + "\n"
  {
  }

  lemma Cons<T>(a: T, b: T, c: T, rest: seq<T>)
    ensures [a] + [b] + ([c] + rest) == [a, b, c] + rest
  {
  }

  lemma DescriptionField(indicator: string)
    requires IsIndicator(indicator)
    ensures Field("description: " + indicator) == Some(("description", indicator)) && HasKey("description: " + indicator)
  {
    hide Field, HasKey, Trim, TrimStart, OneLine;
    var rest := " " + indicator;
    assert "description: " + indicator == "description" + ":" + rest;
    KeyLine("description", rest);
    TrimmedIndicator(indicator);
  }

  lemma TrimmedIndicator(indicator: string)
    requires IsIndicator(indicator)
    ensures OneLine(TrimStart(" " + indicator)) && Trim(" " + indicator) == indicator
  {
    hide LeadingSpaces;
    var rest := " " + indicator;
    TrimStartUnique(rest, 1);
    assert rest[1..] == indicator && indicator[..|indicator|] == indicator;
    hide TrimEnd;
    TrimEndUnique(indicator, |indicator|);
  }

  lemma NestedIsInBlock(lines: seq<string>, k: nat)
    requires k < |lines|
    ensures InBlock(Nested(lines)[k])
  {
    if lines[k] == "" {
      NoKeyWhenEmpty();
    } else {
      NoKeyWhenIndented(Nested(lines)[k]);
    }
  }

  /** Reading those lines gives the name and the value of the block. */
  lemma ReadBlockFile(name: string, indicator: string, lines: seq<string>)
    requires IsBlock(lines) && IsIndicator(indicator) && Plain(name)
    ensures ReadFields(["", "name: " + name, "description: " + indicator] + Nested(lines), 0, Fields("", ""))
      == Fields(name, BlockValue(Join(lines, "\n"), indicator))
  {
    hide Field, HasKey, Join, StripIndent, BlockValue, Trim, IsBlock, IsSpace, ReadFields;
    var all := ["", "name: " + name, "description: " + indicator] + Nested(lines);
    NameField(name);
    NoField();
    DescriptionField(indicator);
    TrimTwice(name);
    KeyEndsBlock(all, 2);
    ReadNameLine(all, name);
    BlockReachesTheEnd(all, lines);
    StripNested(lines);
    ReadLastBlock(all, indicator, name);
    assert ReadValue(name) == name;
  }

  lemma KeyEndsBlock(all: seq<string>, i: nat)
    requires i < |all| && HasKey(all[i])
    ensures BlockEnd(all, i) == i
  {
  }

  lemma BlockReachesTheEnd(all: seq<string>, lines: seq<string>)
    requires |all| == 3 + |lines| && all[3..] == Nested(lines)
    ensures BlockEnd(all, 3) == |all| && all[3..|all|] == Nested(lines)
  {
    hide InBlock, Nested;
    forall k | 3 <= k < |all|
      ensures InBlock(all[k])
    {
      NestedIsInBlock(lines, k - 3);
      assert all[k] == all[3..][k - 3];
    }
  }

  lemma ReadLastBlock(all: seq<string>, indicator: string, name: string)
    requires |all| > 2 && Field(all[2]) == Some(("description", indicator)) && IsIndicator(indicator) && BlockEnd(all, 3) == |all|
    ensures ReadFields(all, 2, Fields(name, "")) == Fields(name, BlockValue(StripIndent(all[3..|all|]), indicator))
  {
    hide Field, StripIndent, BlockValue, IsIndicator;
  }

  lemma NoKeyWhenEmpty()
    ensures !HasKey("")
  {
  }

  lemma BlockFileNoDashes(name: string, indicator: string, lines: seq<string>)
    requires NoDashes(name) && IsIndicator(indicator) && forall i | 0 <= i < |lines| :: NoDashes(lines[i])
    ensures NoDashes("\nname: " + name + "\n" + DescriptionBlock(indicator, lines) + "\n")
  {
    hide NoDashes, Join;
    var block := Nested(lines);
    forall i | 0 <= i < |block|
      ensures NoDashes(block[i])
    {
      NoDashesFree("  ");
      NoDashesFree("");
      NoDashesGlue("  ", lines[i]);
    }
    NoDashesJoin(block, "\n");
    NoDashesFree("\nname: ");
    NoDashesFree("\n");
    HeadNoDashes(indicator);
    NoDashesGlue("description: " + indicator + "\n", Join(block, "\n"));
    NoDashesGlue("\nname: ", name);
    NoDashesGlue("\nname: " + name, "\n");
    NoDashesGlue("\nname: " + name + "\n", DescriptionBlock(indicator, lines));
    NoDashesGlue("\nname: " + name + "\n" + DescriptionBlock(indicator, lines), "\n");
  }

  lemma HeadNoDashes(indicator: string)
    requires IsIndicator(indicator)
    ensures NoDashes("description: " + indicator + "\n")
  {
  }

  /** A file with a block description, in any of the six styles, reads as the name, the block's
      text in that style, and the body: folded paragraph by paragraph for `>`, line by line for
      `|`, and with one line feed more for `+`. */
  lemma BlockFileReads(name: string, indicator: string, paragraphs: seq<seq<string>>, gaps: seq<nat>, body: string)
    requires IsIndicator(indicator) && IsLayout(paragraphs, gaps) && IsBlock(Written(paragraphs, gaps))
    requires Plain(name) && NoDashes(name) && forall i | 0 <= i < |Written(paragraphs, gaps)| :: NoDashes(Written(paragraphs, gaps)[i])
    ensures var lines := Written(paragraphs, gaps);
      var text := if indicator[0] == '>' then Join(Sentences(paragraphs), "\n\n") else Join(lines, "\n");
      ParsedSkill(FileWithBlock(name, indicator, lines, body))
      == Skill(name, if indicator[|indicator| - 1] == '+' then text + "\n" else text, TrimStart(body))
  {
    hide ParsedSkill, ReadFields, Split, TrimEnd, TrimStart, NoDashes, IndexOfDashes, DashesAt, Join, Plain, IsBlock, BlockValue, IsLayout;
    var lines := Written(paragraphs, gaps);
    var h := "\nname: " + name + "\n" + DescriptionBlock(indicator, lines) + "\n";
    BlockFileNoDashes(name, indicator, lines);
    FrontMatterEnds(h, "\n\n" + body);
    LeadingNewlines(body);
    ParsedFrom(FileWithBlock(name, indicator, lines, body), 3 + |h|);
    PlainIsOneLine(name);
    BlockFileLines(name, indicator, lines);
    ReadBlockFile(name, indicator, lines);
    ValueOfBlock(indicator, paragraphs, gaps);
  }

  lemma PlainIsOneLine(name: string)
    requires Plain(name)
    ensures '\n' !in name
  {
    assert IsLineTerminator('\n');
  }

  lemma ValueOfBlock(indicator: string, paragraphs: seq<seq<string>>, gaps: seq<nat>)
    requires IsIndicator(indicator) && IsLayout(paragraphs, gaps) && IsBlock(Written(paragraphs, gaps))
    ensures var lines := Written(paragraphs, gaps);
      var text := if indicator[0] == '>' then Join(Sentences(paragraphs), "\n\n") else Join(lines, "\n");
      BlockValue(Join(lines, "\n"), indicator) == if indicator[|indicator| - 1] == '+' then text + "\n" else text
  {
    hide Join, Split, BlockValue, Written, Sentences, TrimEnd, IsLayout;
    var lines := Written(paragraphs, gaps);
    var folded := indicator[0] == '>';
    var text := if folded then Join(Sentences(paragraphs), "\n\n") else Join(lines, "\n");
    FoldingJoinsParagraphs(paragraphs, gaps);
    ChompingEndsTheText(Join(lines, "\n"), folded);
    TextEndsInAMark(paragraphs, gaps);
    assert indicator in {"|-", ">-"} ==> BlockValue(Join(lines, "\n"), indicator) == text;
  }

  lemma {:induction false} TextEndsInAMark(paragraphs: seq<seq<string>>, gaps: seq<nat>)
    requires IsLayout(paragraphs, gaps) && Written(paragraphs, gaps) != []
    requires var lines := Written(paragraphs, gaps); lines[|lines| - 1] != "" && !IsSpace(lines[|lines| - 1][|lines[|lines| - 1]| - 1])
    ensures var t := Join(Sentences(paragraphs), "\n\n"); t != "" && !IsSpace(t[|t| - 1])
    ensures var t := Join(Written(paragraphs, gaps), "\n"); t != "" && !IsSpace(t[|t| - 1])
  {
    hide Join, Written, IsSpace;
    LastOfJoin(Written(paragraphs, gaps), "\n");
    LastParagraph(paragraphs, gaps);
    assert IsParagraph(paragraphs[|paragraphs| - 1]);
    var last := paragraphs[|paragraphs| - 1];
    LastOfJoin(last, " ");
    LastOfJoin(Sentences(paragraphs), "\n\n");
  }

  lemma {:induction false} LastParagraph(paragraphs: seq<seq<string>>, gaps: seq<nat>)
    requires IsLayout(paragraphs, gaps) && Written(paragraphs, gaps) != []
    requires var lines := Written(paragraphs, gaps); lines[|lines| - 1] != ""
    ensures paragraphs != []
    ensures var last, lines := paragraphs[|paragraphs| - 1], Written(paragraphs, gaps);
      last != [] && last[|last| - 1] == lines[|lines| - 1]
  {
    if paragraphs != [] {
      var rest := Written(paragraphs[1..], gaps[1..]);
      assert IsParagraph(paragraphs[0]);
      if rest != [] {
        LastParagraph(paragraphs[1..], gaps[1..]);
      }
    }
  }

  /** A file that does not start with dashes, or has none after them, is all body. */
  lemma WithoutFrontMatter(content: string)
    requires !("---" <= TrimStart(content)) || forall i: nat | 3 <= i :: !DashesAt(TrimStart(content), i)
    ensures ParsedSkill(content) == Skill("", "", content)
  {
    hide TrimStart, TrimEnd, Split, ReadFields;
    var trimmed := TrimStart(content);
    assert DashesAt(trimmed, 0) ==> trimmed[..3] == "---";
  }
}
