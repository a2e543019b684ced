/** Subject and body of a generated commit message
    (src/workspace/commit-message.ts, generateCommitMessage). */
module CommitSubject {
  import opened CommitMessage
  import opened Numbers
  import opened Text
  import opened Words
  import opened Wrappers

  /** The table from labels to commit types, in the order it is searched. */
  const PREFIXES: seq<(string, string)> := [
    ("bug", "fix"), ("enhancement", "feat"), ("feature", "feat"), ("documentation", "docs"), ("docs", "docs"),
    ("test", "test"), ("testing", "test"), ("refactor", "refactor"), ("chore", "chore"), ("style", "style"),
    ("perf", "perf"), ("performance", "perf"), ("ci", "ci"), ("build", "build")]

  const SOFT_MAX: nat := 50
  const HARD_MAX: nat := 72

  /** Some(i): the first entry, from `from` on, that one of the lower-cased labels names. */
  function FirstLabelled(labels: set<string>, from: nat): (r: Option<nat>)
    requires from <= |PREFIXES|
    ensures r.Some? ==> from <= r.value < |PREFIXES| && PREFIXES[r.value].0 in labels
    ensures forall j | from <= j < (if r.Some? then r.value else |PREFIXES|) :: PREFIXES[j].0 !in labels
    decreases |PREFIXES| - from
  {
    if from == |PREFIXES| then None
    else if PREFIXES[from].0 in labels then Some(from)
    else FirstLabelled(labels, from + 1)
  }

  function PrefixText(labels: set<string>): string {
    var entry := FirstLabelled(labels, 0);
    if entry.Some? then PREFIXES[entry.value].1 + ":" else "Yolomatic:"
  }

  function LowerAscii(s: string): (r: string)
    ensures |r| == |s|
  {
    seq(|s|, i requires 0 <= i < |s| => if 'A' <= s[i] <= 'Z' then s[i] - 'A' + 'a' else s[i])
  }

  /** The lower-case names every object has: looking one up in the verb table finds what
      `Object.prototype` holds instead of a verb. */
  predicate IsInherited(word: string) {
    LowerAscii(word) == "constructor" || LowerAscii(word) == "__proto__"
  }

  /** What the constructor of objects is as text. */
  const NATIVE := "function Object() { [native code] }"

  /** The first word after the lookup, with the letter case kept; None is a miss. `verbs`
      answers for the table's own entries. What is inherited is no string: keeping a capital
      or caseless first letter throws a TypeError. */
  function Replaced(word: string, verbs: string -> Option<string>): Outcome<Option<string>> {
    if !IsInherited(word) then Returned(verbs(word))
    else if word[0] == 'c' then Returned(Some(NATIVE))
    else Threw
  }

  /** toImperative */
  function Imperative(subject: string, verbs: string -> Option<string>): Outcome<string> {
    var words := Pieces(Trim(subject));
    if words == [] then Returned(subject)
    else
      match Replaced(words[0], verbs)
      case Threw => Threw
      case Returned(None) => Returned(subject)
      case Returned(Some(verb)) => Returned(Join([verb] + words[1..], " "))
  }

  function NoDots(s: string): (t: string)
    ensures t <= s && (forall i | |t| <= i < |s| :: s[i] == '.') && (t != "" ==> t[|t| - 1] != '.')
  {
    if s == "" || s[|s| - 1] != '.' then s else NoDots(s[..|s| - 1])
  }

  /** `lastIndexOf(" ")`, -1 when there is none. */
  function LastBlank(s: string): (k: int)
    ensures -1 <= k < |s| && (k >= 0 ==> s[k] == ' ') && forall i | k < i < |s| :: s[i] != ' '
  {
    if s == "" then -1 else if s[|s| - 1] == ' ' then |s| - 1 else LastBlank(s[..|s| - 1])
  }

  function Shortened(subject: string, room: nat): string
    requires room <= |subject|
  {
    var cut := subject[..room];
    var last := LastBlank(cut);
    TrimEnd(if 2 * last > room then cut[..last] else cut)
  }

  function Chosen(summaryLine: string, issue: nat): string {
    var trimmed := Trim(summaryLine);
    if trimmed == "" then "Changes for issue #" + Decimal(issue) else trimmed
  }

  function FullSubject(summaryLine: string, issue: nat, verbs: string -> Option<string>): Outcome<string> {
    match Imperative(Chosen(summaryLine, issue), verbs)
    case Threw => Threw
    case Returned(subject) => Returned(NoDots(subject))
  }

  function Subject(labels: set<string>, full: string): string {
    var room := SOFT_MAX - (|PrefixText(labels)| + 1);
    if |full| > room && room >= 0 then Shortened(full, room) else full
  }

  function Body(lines: seq<string>): string {
    if lines != [] && Trim(lines[0]) == "" then Body(lines[1..]) else Trim(Join(lines, "\n"))
  }

  function FirstLine(labels: set<string>, full: string): string {
    PrefixText(labels) + " " + Subject(labels, full)
  }

  function Message(labels: set<string>, issue: nat, stripped: string, verbs: string -> Option<string>): Outcome<string> {
    var lines := SplitLines(Trim(stripped));
    match FullSubject(lines[0], issue, verbs)
    case Threw => Threw
    case Returned(full) =>
      var body := Body(lines[1..]);
      Returned(if body == "" then FirstLine(labels, full)
               else FirstLine(labels, full) + "\n\n" + Join(Wrapped(body, HARD_MAX), "\n"))
  }

  lemma PrefixIsShort(labels: set<string>)
    ensures 3 <= |PrefixText(labels)| <= 10 && '\n' !in PrefixText(labels)
  {
    var entry := FirstLabelled(labels, 0);
    if entry.Some? {
      PrefixEntry(entry.value);
    }
  }

  lemma PrefixEntry(i: nat)
    requires i < |PREFIXES|
    ensures 2 <= |PREFIXES[i].1| <= 8 && '\n' !in PREFIXES[i].1
  {
    hide FirstLabelled;
  }

  method FindPrefix(labels: set<string>) returns (prefixStr: string)
    ensures prefixStr == PrefixText(labels)
  {
    var prefix: Option<string> := None;
    var i := 0;
    while i < |PREFIXES| && prefix.None?
      invariant 0 <= i <= |PREFIXES|
      invariant prefix.None? ==> FirstLabelled(labels, 0) == FirstLabelled(labels, i)
      invariant prefix.Some? ==> FirstLabelled(labels, 0).Some? && prefix.value == PREFIXES[FirstLabelled(labels, 0).value].1
      decreases |PREFIXES| - i, prefix.None?
    {
      var entry := PREFIXES[i];
      if entry.0 in labels {
        prefix := Some(entry.1);
      } else {
        i := i + 1;
      }
    }
    prefixStr := if prefix.Some? then prefix.value + ":" else "Yolomatic:";
  }

  method BodyText(lines: seq<string>) returns (body: string)
    ensures body == Body(lines)
  {
    hide Trim, Join;
    var bodyLines := lines;
    while |bodyLines| > 0 && Trim(bodyLines[0]) == ""
      invariant Body(bodyLines) == Body(lines)
    {
      bodyLines := bodyLines[1..];
    }
    return Trim(Join(bodyLines, "\n"));
  }

  method CutSubject(labels: set<string>, prefixLen: nat, full: string) returns (subject: string)
    requires prefixLen == |PrefixText(labels)| + 1
    ensures subject == Subject(labels, full)
  {
    hide TrimEnd, LastBlank, PrefixText;
    PrefixIsShort(labels);
    subject := full;
    if prefixLen + |subject| > SOFT_MAX {
      var targetLen := SOFT_MAX - prefixLen;
      var truncated := subject[..targetLen];
      var lastSpace := LastBlank(truncated);
      if 2 * lastSpace > targetLen {
        truncated := truncated[..lastSpace];
      }
      subject := TrimEnd(truncated);
    }
    // The cut to HARD_MAX that follows never fires.
    assert prefixLen + |subject| <= SOFT_MAX < HARD_MAX;

  }

  /** `stripMarkdown` has been applied to the summary. */
  method GenerateCommitMessage(labels: set<string>, issue: nat, stripped: string, verbs: string -> Option<string>)
    returns (message: Outcome<string>)
    ensures message == Message(labels, issue, stripped, verbs)
  {
    hide SplitLines, Trim, Imperative, NoDots, Decimal, Wrapped, PrefixText, Subject, Body, Join;
    var prefixStr := FindPrefix(labels);
    var prefixLen := |prefixStr| + 1;

    var summaryLines := SplitLines(Trim(stripped));
    var firstLine := Trim(summaryLines[0]);
    var subject := if firstLine == "" then "Changes for issue #" + Decimal(issue) else firstLine;
    var imperative := Imperative(subject, verbs);
    if imperative.Threw? {
      return Threw;
    }
    subject := NoDots(imperative.value);
    subject := CutSubject(labels, prefixLen, subject);
    // The cut to HARD_MAX that follows never fires.
    SubjectFits(labels, NoDots(imperative.value));
    assert prefixLen + |subject| <= SOFT_MAX < HARD_MAX;

    var body := BodyText(summaryLines[1..]);
    var fullSubject := prefixStr + " " + subject;
    if body == "" {
      return Returned(fullSubject);
    }
    var wrapped := WrapText(body, HARD_MAX);
    return Returned(fullSubject + "\n\n" + wrapped);
  }

  // ------------------------------------------------------------- what it means

  lemma {:induction false} SplitLinesPlain(s: string)
    ensures forall i | 0 <= i < |SplitLines(s)| :: '\n' !in SplitLines(s)[i]
    decreases |s|
  {
    if s != "" {
      if s[0] == '\n' {
        SplitLinesPlain(s[1..]);
      } else if s[0] == '\r' && |s| > 1 && s[1] == '\n' {
        SplitLinesPlain(s[2..]);
      } else {
        SplitLinesPlain(s[1..]);
      }
    }
  }

  lemma {:induction false} PiecesPlain(s: string)
    ensures forall i | 0 <= i < |Pieces(s)| :: '\n' !in Pieces(s)[i]
  {
    PiecesAreWords(s);
    forall i | 0 <= i < |Pieces(s)|
      ensures '\n' !in Pieces(s)[i]
    {
      assert SpaceFree(Pieces(s)[i]);
      assert IsSpace('\n');
    }
  }

  lemma {:induction false} JoinPlain(words: seq<string>)
    requires forall i | 0 <= i < |words| :: '\n' !in words[i]
    ensures '\n' !in Join(words, " ")
  {
    if |words| > 1 {
      JoinPlain(words[1..]);
    }
  }

  lemma TrimPlain(s: string)
    requires '\n' !in s
    ensures '\n' !in Trim(s)
  {
    var t := TrimStart(s);
    assert Trim(s) == t[..|Trim(s)|];
  }

  lemma ChosenIsOneLine(summaryLine: string, issue: nat)
    requires '\n' !in summaryLine
    ensures '\n' !in Chosen(summaryLine, issue)
  {
    hide Trim, Decimal;
    TrimPlain(summaryLine);
    NumberHasNo(issue, '\n');
  }

  lemma ImperativeIsOneLine(subject: string, verbs: string -> Option<string>)
    requires '\n' !in subject
    requires forall w :: verbs(w).Some? ==> '\n' !in verbs(w).value
    ensures Imperative(subject, verbs).Returned? ==> '\n' !in Imperative(subject, verbs).value
  {
    hide Trim, Pieces, Join, IsInherited;
    var words := Pieces(Trim(subject));
    PiecesPlain(Trim(subject));
    if words != [] {
      var replaced := Replaced(words[0], verbs);
      if replaced.Returned? && replaced.value.Some? {
        JoinPlain([replaced.value.value] + words[1..]);
      }
    }
  }

  /** The prefix is the commit type of the first table entry that a label names. */
  lemma PrefixIsTheFirstEntrys(labels: set<string>, i: nat)
    requires i <= |PREFIXES| && forall j | 0 <= j < i :: PREFIXES[j].0 !in labels
    requires i < |PREFIXES| ==> PREFIXES[i].0 in labels
    ensures PrefixText(labels) == if i < |PREFIXES| then PREFIXES[i].1 + ":" else "Yolomatic:"
  {
    var entry := FirstLabelled(labels, 0);
    assert entry.Some? ==> entry.value >= i;
  }

  /** Labels and the prefixes they lead to; a bug that is also an enhancement is a fix. */
  lemma LabelsLeadTo()
    ensures PrefixText({"bug", "enhancement"}) == "fix:" && PrefixText({"enhancement"}) == "feat:"
    ensures PrefixText({"documentation"}) == "docs:" && PrefixText({"question"}) == "Yolomatic:"
  {
    PrefixIsTheFirstEntrys({"bug", "enhancement"}, 0);
    PrefixIsTheFirstEntrys({"enhancement"}, 1);
    PrefixIsTheFirstEntrys({"documentation"}, 3);
    PrefixIsTheFirstEntrys({"question"}, |PREFIXES|);
  }

  /** The first line of a message is the prefix and a beginning of the full subject, and it
      is at most 50 long. */
  predicate FirstLineIs(labels: set<string>, message: string, full: string) {
    var first := Split(message, '\n')[0];
    && |first| <= 50
    && first == PrefixText(labels) + " " + Subject(labels, full)
    && Subject(labels, full) <= full
  }

  /** For every summary that gives a message. */
  lemma FirstLineFits(labels: set<string>, issue: nat, stripped: string, verbs: string -> Option<string>)
    requires forall w :: verbs(w).Some? ==> '\n' !in verbs(w).value
    ensures var m := Message(labels, issue, stripped, verbs);
      var full := FullSubject(SplitLines(Trim(stripped))[0], issue, verbs);
      m.Returned? ==> full.Returned? && FirstLineIs(labels, m.value, full.value)
  {
    hide SplitLines, Trim, Imperative, Chosen, FirstLine, Wrapped, Body, Join, FirstLineIs, NoDots;
    var lines := SplitLines(Trim(stripped));
    SplitLinesPlain(Trim(stripped));
    ChosenIsOneLine(lines[0], issue);
    ImperativeIsOneLine(Chosen(lines[0], issue), verbs);
    var full := FullSubject(lines[0], issue, verbs);
    if full.Returned? {
      assert full.value <= Imperative(Chosen(lines[0], issue), verbs).value;
      SubjectComesFirst(labels, full.value, Body(lines[1..]));
    }
  }

  lemma SubjectComesFirst(labels: set<string>, full: string, body: string)
    requires '\n' !in full
    ensures var m := if body == "" then FirstLine(labels, full) else FirstLine(labels, full) + "\n\n" + Join(Wrapped(body, HARD_MAX), "\n");
      FirstLineIs(labels, m, full)
  {
    hide Wrapped, Join, FirstLabelled, Subject;
    PrefixIsShort(labels);
    SubjectFits(labels, full);
    var subject := FirstLine(labels, full);
    assert '\n' !in subject;
    if body == "" {
      SplitOfPlain(subject, '\n');
    } else {
      var tail := "\n" + Join(Wrapped(body, HARD_MAX), "\n");
      assert subject + "\n\n" + Join(Wrapped(body, HARD_MAX), "\n") == subject + ['\n'] + tail;
      SplitAtSep(subject, '\n', tail);
    }
  }

  lemma SubjectFits(labels: set<string>, full: string)
    ensures Subject(labels, full) <= full && |PrefixText(labels)| + 1 + |Subject(labels, full)| <= SOFT_MAX
  {
    hide FirstLabelled;
    PrefixIsShort(labels);
    var room := SOFT_MAX - (|PrefixText(labels)| + 1);
    if |full| > room {
      var cut := full[..room];
      var last := LastBlank(cut);
      var kept := if 2 * last > room then cut[..last] else cut;
      assert kept <= full;
    }
  }

  /** Where a subject is cut: at the last blank in the second half of the room, or at its end. */
  lemma SubjectIsCut(labels: set<string>, full: string)
    ensures var room := 50 - (|PrefixText(labels)| + 1);
      && room >= 39
      && (|full| <= room ==> Subject(labels, full) == full)
      && (|full| > room && 2 * LastBlank(full[..room]) <= room ==> Subject(labels, full) == TrimEnd(full[..room]))
      && (|full| > room && 2 * LastBlank(full[..room]) > room ==>
            Subject(labels, full) == TrimEnd(full[..LastBlank(full[..room])]))
  {
    hide FirstLabelled, TrimEnd;
    PrefixIsShort(labels);
    var room := SOFT_MAX - (|PrefixText(labels)| + 1);
    if |full| > room && 2 * LastBlank(full[..room]) > room {
      var last := LastBlank(full[..room]);
      assert full[..room][..last] == full[..last];
    }
  }

  /** A subject that had to be cut ends before a whole word whenever a blank lies in
      the second half of the room; then no word of it is a fragment. */
  lemma CutAtAWord(labels: set<string>, full: string)
    ensures var room := 50 - (|PrefixText(labels)| + 1);
      && (|full| <= room ==> Subject(labels, full) == full)
      && (|full| > room >= 0 && 2 * LastBlank(full[..room]) > room ==> WordsOf(Subject(labels, full)) <= WordsOf(full))
  {
    hide FirstLabelled, WordsFrom, Subject, PrefixText;
    SubjectIsCut(labels, full);
    var room := SOFT_MAX - (|PrefixText(labels)| + 1);
    if |full| > room && 2 * LastBlank(full[..room]) > room {
      var last := LastBlank(full[..room]);
      var kept := full[..last];
      assert full == kept + [' '] + full[last + 1..];
      WordsAtSpace(kept, ' ', full[last + 1..], "");
      var t := TrimEnd(kept);
      assert t == kept[..|t|];
      TrailingSpaceNoWords(kept, |t|);
    }
  }

  /** The other words of the subject are those of the summary line. */
  lemma ImperativeChangesOneWord(subject: string, verbs: string -> Option<string>)
    requires Trim(subject) != "" && Imperative(subject, verbs).Returned?
    ensures var words := WordsOf(subject);
      && words != []
      && Replaced(words[0], verbs).Returned?
      && WordsOf(Imperative(subject, verbs).value) ==
           (if Replaced(words[0], verbs).value.Some? then WordsOf(Replaced(words[0], verbs).value.value) else [words[0]]) + words[1..]
  {
    hide WordsFrom, Pieces, Trim, Join, IsSpace, Marked, Replaced;
    SubjectPieces(subject);
    var words := Pieces(Trim(subject));
    var replaced := Replaced(words[0], verbs).value;
    if replaced.Some? {
      var rest := words[1..];
      JoinWords([replaced.value] + rest, ' ');
      assert ([replaced.value] + rest)[1..] == rest;
      LineWordsOfWords(rest);
    } else {
      assert [words[0]] + words[1..] == words;
    }
  }

  lemma SubjectPieces(subject: string)
    requires Trim(subject) != ""
    ensures Pieces(Trim(subject)) == WordsOf(subject) && AreWords(WordsOf(subject)) && WordsOf(subject) != []
  {
    hide WordsFrom, Pieces, Trim, IsSpace, Marked;
    TrimMarked(subject);
    MarkedPieces(Trim(subject));
    TrimKeepsWords(subject);
    FirstPieceExists(Trim(subject));
  }

  lemma {:induction false} LineWordsOfWords(words: seq<string>)
    requires AreWords(words)
    ensures LineWords(words) == words
  {
    hide WordsFrom;
    if words != [] {
      assert IsWord(words[0]);
      WordOfWord(words[0]);
      LineWordsOfWords(words[1..]);
    }
  }

  /** A message is produced for every input but one kind: a summary whose first word is an
      inherited name in any letter case that does not start with a small letter, such as
      "Constructor". */
  lemma MessageIsProducedExactly(labels: set<string>, issue: nat, stripped: string, verbs: string -> Option<string>)
    ensures var first := SplitLines(Trim(stripped))[0];
      Message(labels, issue, stripped, verbs).Threw? <==>
        Trim(first) != "" && WordsOf(first) != [] && IsInherited(WordsOf(first)[0]) && WordsOf(first)[0][0] != 'c'
  {
    hide SplitLines, Trim, WordsFrom, Pieces, Join, Decimal, IsInherited, Body, Wrapped;
    var first := SplitLines(Trim(stripped))[0];
    if Trim(first) == "" {
      FallbackIsPlain(issue);
    } else {
      SubjectPieces(first);
      TrimTwice(first);
    }
  }

  /** A summary that starts with "constructor" in small letters gets what JavaScript prints for
      that function in its place. */
  lemma ConstructorIsPrinted(subject: string, verbs: string -> Option<string>)
    requires Trim(subject) != "" && WordsOf(subject) != [] && WordsOf(subject)[0] == "constructor"
    ensures var r := Imperative(subject, verbs);
      r.Returned? && "function Object() { [native code] }" <= r.value
  {
    hide Trim, WordsFrom, Pieces;
    SubjectPieces(subject);
    ConstructorIsInherited();
    var words := Pieces(Trim(subject));
    var replaced := [NATIVE] + words[1..];
    assert replaced[0] == NATIVE;
  }

  lemma ConstructorIsInherited()
    ensures IsInherited("constructor") && IsInherited("Constructor") && !IsInherited("construct")
  {
    assert LowerAscii("constructor") == "constructor";
    assert LowerAscii("Constructor") == "constructor";
    assert |LowerAscii("construct")| == 9 && LowerAscii("construct")[0] == 'c';
  }

  lemma TrimTwice(s: string)
    requires Trim(s) != ""
    ensures Trim(Trim(s)) == Trim(s)
  {
    TrimMarked(s);
    TrimStartUnique(Trim(s), 0);
    TrimEndUnique(Trim(s), |Trim(s)|);
  }

  lemma FallbackIsPlain(issue: nat)
    ensures var words := Pieces(Trim("Changes for issue #" + Decimal(issue)));
      words != [] && !IsInherited(words[0])
  {
    hide Pieces, Trim, IsInherited, IsSpace;
    var digits := Decimal(issue);
    var s := "Changes for issue #" + digits;
    assert s[|s| - 1] == digits[|digits| - 1] && IsDigit(digits[|digits| - 1]);
    PlainStart(s);
  }

  lemma PlainStart(s: string)
    requires |s| > 2 && s[0] == 'C' && s[1] == 'h' && IsDigit(s[|s| - 1])
    ensures Pieces(Trim(s)) != [] && !IsInherited(Pieces(Trim(s))[0])
  {
    hide Trim, IsSpace, IsInherited, RunLength, LeadingSpaces;
    EndsMarked(s);
    LongRun(s);
    var word := Pieces(s)[0];
    assert word == s[..RunLength(s)] || word == s;
    NotInherited(word);
  }

  lemma EndsMarked(s: string)
    requires |s| > 2 && s[0] == 'C' && IsDigit(s[|s| - 1])
    ensures Trim(s) == s
  {
    TrimStartUnique(s, 0);
    TrimEndUnique(s, |s|);
    assert s[..|s|] == s && s[0..] == s;
  }

  lemma LongRun(s: string)
    requires |s| > 2 && s[0] == 'C' && s[1] == 'h'
    ensures RunLength(s) > 1
  {
    assert s[1..][0] == 'h' && !IsSpace('C') && !IsSpace('h');
  }

  lemma NotInherited(word: string)
    requires |word| > 1 && word[1] == 'h'
    ensures !IsInherited(word)
  {
    assert LowerAscii(word)[1] == 'h';
  }

  lemma FirstPieceExists(s: string)
    ensures Pieces(s) != []
  {
  }

  lemma {:induction false} BodyWords(lines: seq<string>)
    ensures WordsOf(Body(lines)) == LineWords(lines)
  {
    hide WordsFrom, Trim, Join;
    if lines != [] && Trim(lines[0]) == "" {
      BlankHasNoWords(lines[0]);
      BodyWords(lines[1..]);
    } else {
      TrimKeepsWords(Join(lines, "\n"));
      JoinWords(lines, '\n');
    }
  }

  /** In every message all words of the other summary lines follow the first, in order. */
  lemma BodyKeepsWords(labels: set<string>, issue: nat, stripped: string, verbs: string -> Option<string>)
    ensures var lines := SplitLines(Trim(stripped));
      var full := FullSubject(lines[0], issue, verbs);
      var m := Message(labels, issue, stripped, verbs);
      m.Returned? ==> full.Returned? && Continues(m.value, FirstLine(labels, full.value), LineWords(lines[1..]))
  {
    hide SplitLines, Trim, FullSubject, Wrapped, Body, Join, FirstLine, Continues;
    var lines := SplitLines(Trim(stripped));
    var full := FullSubject(lines[0], issue, verbs);
    if full.Returned? {
      BodyFollows(FirstLine(labels, full.value), lines[1..]);
    }
  }

  predicate Continues(message: string, subject: string, words: seq<string>) {
    subject <= message && WordsOf(message[|subject|..]) == words
  }

  lemma BodyFollows(subject: string, lines: seq<string>)
    ensures var body := Body(lines);
      Continues(if body == "" then subject else subject + "\n\n" + Join(Wrapped(body, HARD_MAX), "\n"), subject, LineWords(lines))
  {
    hide Wrapped, Body, Join, WordsFrom;
    var body := Body(lines);
    var m := if body == "" then subject else subject + "\n\n" + Join(Wrapped(body, HARD_MAX), "\n");
    BodyWords(lines);
    if body == "" {
      assert m[|subject|..] == "";
      assert m[|subject|..] == body;
    } else {
      var wrapped := Join(Wrapped(body, HARD_MAX), "\n");
      assert m[|subject|..] == "\n\n" + wrapped;
      WrapKeepsWords(body, HARD_MAX);
      LeadingSpaceNoWords("\n\n" + wrapped, 2);
      assert ("\n\n" + wrapped)[2..] == wrapped;
    }
  }
}
