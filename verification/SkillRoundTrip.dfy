/** Which skills survive being written to a SKILL.md file and read back:
    exactly the ones `Storable` describes. */
module SkillRoundTrip {
  import opened Wrappers
  import opened Text
  import opened SkillFile

  // ------------------------------------------------------------------ dashes

  ghost predicate NoDashes(s: string) {
    forall i: nat :: !DashesAt(s, i)
  }

  lemma NoDashesSlice(s: string, lo: nat, hi: nat)
    requires NoDashes(s) && lo <= hi <= |s|
    ensures NoDashes(s[lo..hi])
  {
    forall i: nat
      ensures !DashesAt(s[lo..hi], i)
    {
      assert !DashesAt(s, lo + i);
    }
  }

  lemma NoDashesDrop(s: string, n: nat)
    requires NoDashes(s) && n <= |s|
    ensures NoDashes(s[n..]) && NoDashes(s[..n])
  {
    NoDashesSlice(s, n, |s|);
    NoDashesSlice(s, 0, n);
    assert s[n..] == s[n..|s|] && s[..n] == s[0..n];
  }

  lemma NoDashesGlue(a: string, b: string)
    requires NoDashes(a) && NoDashes(b)
    requires a == "" || b == "" || a[|a| - 1] != '-' || b[0] != '-'
    ensures NoDashes(a + b)
  {
    forall i: nat
      ensures !DashesAt(a + b, i)
    {
      assert !DashesAt(a, i) && (|a| <= i ==> !DashesAt(b, i - |a|));
    }
  }

  lemma {:induction false} NoDashesJoin(lines: seq<string>, sep: string)
    requires forall i | 0 <= i < |lines| :: NoDashes(lines[i])
    requires sep != "" && forall i | 0 <= i < |sep| :: sep[i] != '-'
    ensures NoDashes(Join(lines, sep))
  {
    if |lines| > 1 {
      NoDashesJoin(lines[1..], sep);
      NoDashesFree(sep);
      NoDashesGlue(lines[0], sep);
      NoDashesGlue(lines[0] + sep, Join(lines[1..], sep));
    } else {
      NoDashesFree("");
    }
  }

  lemma NoDashesFree(s: string)
    requires forall i | 0 <= i < |s| :: s[i] != '-'
    ensures NoDashes(s)
  {
  }

  lemma {:induction false} SplitHead(s: string, sep: char)
    ensures Split(s, sep)[0] <= s
  {
    if s != [] {
      SplitHead(s[1..], sep);
    }
  }

  lemma {:induction false} NoDashesSplit(s: string, sep: char)
    requires NoDashes(s)
    ensures forall i | 0 <= i < |Split(s, sep)| :: NoDashes(Split(s, sep)[i])
  {
    if s == [] {
      NoDashesFree("");
    } else {
      NoDashesDrop(s, 1);
      NoDashesSplit(s[1..], sep);
      SplitHead(s, sep);
      NoDashesDrop(s, |Split(s, sep)[0]|);
      assert Split(s, sep)[0] == s[..|Split(s, sep)[0]|];
      var rest := Split(s[1..], sep);
      forall i | 0 < i < |Split(s, sep)|
        ensures NoDashes(Split(s, sep)[i])
      {
        assert Split(s, sep)[i] == rest[if s[0] == sep then i - 1 else i];
      }
    }
  }

  lemma NoDashesTrimEnd(s: string)
    requires NoDashes(s)
    ensures NoDashes(TrimEnd(s))
  {
    hide NoDashes;
    NoDashesDrop(s, |TrimEnd(s)|);
    assert TrimEnd(s) == s[..|TrimEnd(s)|];
  }

  lemma {:induction false} NoDashesTrim(s: string)
    requires NoDashes(s)
    ensures NoDashes(TrimStart(s)) && NoDashes(TrimEnd(s)) && NoDashes(Trim(s))
  {
    hide NoDashes, TrimEnd;
    NoDashesDrop(s, LeadingSpaces(s));
    NoDashesTrimEnd(s);
    NoDashesTrimEnd(TrimStart(s));
  }

  // ------------------------------------------------------ what parsing yields

  lemma {:induction false} NoDashesParagraphs(lines: seq<string>, current: seq<string>)
    requires forall i | 0 <= i < |lines| :: NoDashes(lines[i])
    requires forall i | 0 <= i < |current| :: NoDashes(current[i])
    ensures forall i | 0 <= i < |Paragraphs(lines, current)| :: NoDashes(Paragraphs(lines, current)[i])
  {
    NoDashesJoin(current, " ");
    if lines != [] {
      NoDashesParagraphs(lines[1..], if lines[0] != "" then current + [lines[0]] else []);
    }
  }

  lemma NoDashesBlock(block: seq<string>, indicator: string)
    requires IsIndicator(indicator) && forall i | 0 <= i < |block| :: NoDashes(block[i])
    ensures NoDashes(BlockValue(StripIndent(block), indicator))
  {
    var dropped := DropAll(block, CommonIndent(block));
    forall i | 0 <= i < |dropped|
      ensures NoDashes(dropped[i])
    {
      if CommonIndent(block) <= |block[i]| { NoDashesDrop(block[i], CommonIndent(block)); } else { NoDashesFree(""); }
    }
    NoDashesJoin(dropped, "\n");
    var lines := Split(StripIndent(block), '\n');
    NoDashesSplit(StripIndent(block), '\n');
    NoDashesParagraphs(lines, []);
    NoDashesJoin(Paragraphs(lines, []), "\n\n");
    NoDashesJoin(lines, "\n");
    NoDashesFree("\n");
    var text := if indicator[0] == '>' then Join(Paragraphs(lines, []), "\n\n") else Join(lines, "\n");
    NoDashesGlue(text, "\n");
    NoDashesTrim(text);
  }

  ghost predicate Clean(f: Fields) {
    NoDashes(f.name) && NoDashes(f.description)
  }

  lemma FieldNoDashes(line: string)
    requires NoDashes(line)
    ensures Field(line).Some? ==> NoDashes(Field(line).value.1)
  {
    hide NoDashes;
    var n := KeyLength(line);
    if HasKey(line) {
      NoDashesDrop(line, n + 1);
      NoDashesTrim(line[n + 1..]);
    }
  }

  lemma ReadFieldNoDashes(lines: seq<string>, i: nat, f: Fields)
    requires i < |lines| && (forall k | 0 <= k < |lines| :: NoDashes(lines[k])) && Clean(f)
    ensures Clean(ReadField(lines, i, f).0)
  {
    hide NoDashes, Field;
    FieldNoDashes(lines[i]);
    var field := Field(lines[i]);
    if field.Some? && IsIndicator(field.value.1) {
      NoDashesBlock(lines[i + 1..BlockEnd(lines, i + 1)], field.value.1);
    }
  }

  lemma {:induction false} ReadFieldsNoDashes(lines: seq<string>, i: nat, f: Fields)
    requires i <= |lines| && (forall k | 0 <= k < |lines| :: NoDashes(lines[k])) && Clean(f)
    ensures Clean(ReadFields(lines, i, f))
    decreases |lines| - i
  {
    if i < |lines| {
      var (f', j) := ReadField(lines, i, f);
      ReadFieldNoDashes(lines, i, f);
      ReadFieldsNoDashes(lines, j, f');
    }
  }

  /** Nothing the parser returns as a name or a description contains dashes. */
  lemma ParsedFieldsNoDashes(content: string)
    ensures var skill := ParsedSkill(content); NoDashes(skill.name) && NoDashes(skill.description)
  {
    var trimmed := TrimStart(content);
    NoDashesFree("");
    var end := IndexOfDashes(trimmed, 3);
    if DashesAt(trimmed, 0) && end != -1 {
      var inner := trimmed[3..end];
      forall i: nat
        ensures !DashesAt(inner, i)
      {
        assert !DashesAt(trimmed, 3 + i) || end <= 3 + i;
      }
      NoDashesTrim(inner);
      NoDashesSplit(TrimEnd(inner), '\n');
      ReadFieldsNoDashes(Split(TrimEnd(inner), '\n'), 0, Fields("", ""));
    }
  }

  // -------------------------------------------------- finding the frontmatter

  lemma HeaderNoDashes(name: string, description: string)
    requires NoDashes(name) && NoDashes(description)
    ensures NoDashes(Header(name, description))
  {
    var yaml := DescriptionYaml(description);
    if '\n' in description {
      var lines := Split(description, '\n');
      NoDashesSplit(description, '\n');
      forall i | 0 <= i < |lines|
        ensures NoDashes(Indented(lines)[i])
      {
        NoDashesFree("  ");
        NoDashesGlue("  ", lines[i]);
      }
      NoDashesJoin(Indented(lines), "\n");
      NoDashesFree("|\n");
      NoDashesGlue("|\n", Join(Indented(lines), "\n"));
    }
    NoDashesFree("\nname: ");
    NoDashesFree("\ndescription: ");
    NoDashesFree("\n");
    NoDashesGlue("\nname: ", name);
    NoDashesGlue("\nname: " + name, "\ndescription: ");
    NoDashesGlue("\nname: " + name + "\ndescription: ", yaml);
    NoDashesGlue("\nname: " + name + "\ndescription: " + yaml, "\n");
  }

  function ReadHeader(name: string, description: string): Fields {
    ReadFields(Split(TrimEnd(Header(name, description)), '\n'), 0, Fields("", ""))
  }

  /** Without dashes in it the header ends where the printer ended it. */
  lemma ParsedBuilt(name: string, description: string, body: string)
    requires NoDashes(name) && NoDashes(description)
    ensures var f := ReadHeader(name, description);
      ParsedSkill(BuildSkillFile(name, description, body)) == Skill(f.name, f.description, TrimStart(body))
  {
    hide ReadFields, Split, TrimEnd, TrimStart, NoDashes, IndexOfDashes, DashesAt, Header, ParsedSkill;
    var h := Header(name, description);
    HeaderNoDashes(name, description);
    HeaderEnds(name, description);
    FrontMatterEnds(h, "\n\n" + body);
    LeadingNewlines(body);
    ParsedFrom(BuildSkillFile(name, description, body), 3 + |h|);
  }

  lemma ParsedFrom(content: string, end: nat)
    requires TrimStart(content) == content && DashesAt(content, 0) && IndexOfDashes(content, 3) == end && 3 <= end && end + 3 <= |content|
    ensures var f := ReadFields(Split(TrimEnd(content[3..end]), '\n'), 0, Fields("", ""));
      ParsedSkill(content) == Skill(f.name, f.description, TrimStart(content[end + 3..]))
  {
    hide ReadFields, Split, TrimEnd, TrimStart, IndexOfDashes;
  }

  lemma HeaderEnds(name: string, description: string)
    ensures var h := Header(name, description); h != "" && h[|h| - 1] == '\n'
  {
  }

  /** The closing dashes are found right after a header without dashes. */
  lemma FrontMatterEnds(h: string, rest: string)
    requires NoDashes(h) && h != "" && h[|h| - 1] == '\n'
    ensures var content := "---" + h + "---" + rest; var end := 3 + |h|;
      && TrimStart(content) == content && DashesAt(content, 0)
      && IndexOfDashes(content, 3) == end && content[3..end] == h && content[end + 3..] == rest
  {
    var content := "---" + h + "---" + rest;
    var end := 3 + |h|;
    assert content[0] == '-' && !IsSpace(content[0]);
    assert content[3..end] == h && content[end + 3..] == rest;
    assert content[end - 1] == '\n' && DashesAt(content, end);
    forall k: nat | 3 <= k < end
      ensures !DashesAt(content, k)
    {
      assert !DashesAt(h, k - 3);
      assert k + 2 < end ==> content[k] == h[k - 3] && content[k + 1] == h[k - 2] && content[k + 2] == h[k - 1];
    }
  }

  lemma LeadingNewlines(body: string)
    ensures TrimStart("\n\n" + body) == TrimStart(body)
  {
    TrimStartUnique("\n\n" + body, 2 + LeadingSpaces(body));
  }

  // ------------------------------------------------------- reading the header

  /** What a value on a line of its own reads back as. */
  function ReadValue(value: string): string {
    if !OneLine(TrimStart(value)) then ""
    else if IsIndicator(Trim(value)) then BlockValue("", Trim(value))
    else Trim(value)
  }

  /** `tail` is what follows the name in the trimmed header. */
  function DescriptionTail(description: string): string {
    TrimEnd("description: " + DescriptionYaml(description))
  }

  lemma TrimEndAfter(a: string, x: string, ws: string)
    requires TrimEnd(x) != "" && AllSpace(ws)
    ensures TrimEnd(a + x + ws) == a + TrimEnd(x)
  {
    TrimEndUnique(a + x + ws, |a| + |TrimEnd(x)|);
    assert (a + x + ws)[..|a| + |TrimEnd(x)|] == a + TrimEnd(x);
  }

  lemma TrimEndKeepsKey(value: string)
    ensures TrimEnd("description: " + value) == "description:" + TrimEnd(" " + value)
  {
    var x := "description: " + value;
    var y := " " + value;
    assert x == "description:" + y;
    assert x[..|"description:"| + |TrimEnd(y)|] == "description:" + TrimEnd(y);
    TrimEndUnique(x, |"description:"| + |TrimEnd(y)|);
  }

  lemma {:induction false} KeyLengthIs(key: string, rest: string)
    requires forall i | 0 <= i < |key| :: IsKeyChar(key[i])
    requires rest == "" || !IsKeyChar(rest[0])
    ensures KeyLength(key + rest) == |key|
  {
    if key == "" {
      assert key + rest == rest;
    } else {
      KeyLengthIs(key[1..], rest);
      assert (key + rest)[1..] == key[1..] + rest;
    }
  }

  lemma KeyLine(key: string, rest: string)
    requires key != "" && forall i | 0 <= i < |key| :: IsKeyChar(key[i])
    ensures var line := key + ":" + rest;
      HasKey(line) && Field(line) == if OneLine(TrimStart(rest)) then Some((key, Trim(rest))) else None
  {
    var line := key + ":" + rest;
    assert line == key + (":" + rest);
    KeyLengthIs(key, ":" + rest);
    assert line[|key| + 1..] == rest && line[..|key|] == key;
  }

  lemma LeadingBlank(value: string)
    ensures TrimStart(" " + value) == TrimStart(value) && Trim(" " + value) == Trim(value)
  {
    TrimStartUnique(" " + value, 1 + LeadingSpaces(value));
  }

  /** The trimmed header, line by line. */
  lemma HeaderLines(name: string, description: string)
    ensures Split(TrimEnd(Header(name, description)), '\n')
      == [""] + Split("name: " + name, '\n') + Split(DescriptionTail(description), '\n')
  {
    hide Split, TrimEnd;
    var yaml := "description: " + DescriptionYaml(description);
    TrimEndKeepsKey(DescriptionYaml(description));
    var nameLine := "name: " + name;
    assert Header(name, description) == ("\n" + nameLine + "\n") + yaml + "\n";
    ThreeParts(nameLine, yaml);
  }

  lemma ThreeParts(a: string, b: string)
    requires TrimEnd(b) != ""
    ensures Split(TrimEnd(("\n" + a + "\n") + b + "\n"), '\n') == [""] + Split(a, '\n') + Split(TrimEnd(b), '\n')
  {
    hide Split, TrimEnd;
    var tail := TrimEnd(b);
    TrimEndAfter("\n" + a + "\n", b, "\n");
    var rest := a + ['\n'] + tail;
    assert ("\n" + a + "\n") + tail == "" + ['\n'] + rest;
    SplitAtSep("", '\n', rest);
    SplitConcat(a, '\n', tail);
    assert [""] + (Split(a, '\n') + Split(tail, '\n')) == [""] + Split(a, '\n') + Split(tail, '\n');
  }

  lemma {:induction false} SplitConcat(a: string, sep: char, b: string)
    ensures Split(a + [sep] + b, sep) == Split(a, sep) + Split(b, sep)
  {
    var s := a + [sep] + b;
    if a == [] {
      assert s[0] == sep && s[1..] == b;
    } else {
      SplitConcat(a[1..], sep, b);
      assert s[0] == a[0] && s[1..] == a[1..] + [sep] + b;
      PrefixedSplit(Split(a[1..], sep), Split(b, sep), a[0]);
    }
  }

  lemma PrefixedSplit(head: seq<string>, tail: seq<string>, c: char)
    requires head != []
    ensures var all := head + tail;
      [""] + all == [""] + head + tail && [[c] + all[0]] + all[1..] == [[c] + head[0]] + head[1..] + tail
  {
    var all := head + tail;
    assert all[1..] == head[1..] + tail;
  }

  lemma {:induction false} SplitPrefix(a: string, s: string, sep: char)
    requires sep !in a
    ensures Split(a + s, sep) == [a + Split(s, sep)[0]] + Split(s, sep)[1..]
  {
    var lines := Split(s, sep);
    if a == [] {
      assert a + s == s && a + lines[0] == lines[0];
      assert [lines[0]] + lines[1..] == lines;
    } else {
      SplitPrefix(a[1..], s, sep);
      assert (a + s)[0] == a[0] && (a + s)[1..] == a[1..] + s;
      var rest := [a[1..] + lines[0]] + lines[1..];
      assert Split((a + s)[1..], sep) == rest;
      assert rest[1..] == lines[1..];
      assert [a[0]] + (a[1..] + lines[0]) == a + lines[0];
    }
  }

  /** The fields of a header whose name is a single line. */
  lemma ReadHeaderOneLineName(name: string, description: string)
    requires '\n' !in name
    ensures var tail := Split(DescriptionTail(description), '\n');
      ReadHeader(name, description) == ReadFields(tail, 0, Fields(ReadValue(name), ""))
  {
    hide Split, Field, HasKey, DescriptionTail;
    var tail := Split(DescriptionTail(description), '\n');
    HeaderLines(name, description);
    SplitOfPlain("name: " + name, '\n');
    var lines := ["", "name: " + name] + tail;
    assert [""] + ["name: " + name] + tail == lines;
    TailStarts(description);
    NameField(name);
    NoField();
    assert lines[2] == tail[0];
    assert BlockEnd(lines, 2) == 2;
    ReadNameLine(lines, name);
    assert lines[2..] == tail;
    ReadFieldsSuffix(lines, 2, 0, Fields(ReadValue(name), ""));
  }

  lemma NameField(name: string)
    ensures Field("name: " + name) == if OneLine(TrimStart(name)) then Some(("name", Trim(name))) else None
  {
    assert "name: " + name == "name" + ":" + (" " + name);
    KeyLine("name", " " + name);
    LeadingBlank(name);
  }

  lemma NoField()
    ensures Field("") == None
  {
  }

  lemma ReadNameLine(lines: seq<string>, name: string)
    requires |lines| >= 2 && lines[0] == "" && lines[1] == "name: " + name && BlockEnd(lines, 2) == 2
    requires Field("name: " + name) == if OneLine(TrimStart(name)) then Some(("name", Trim(name))) else None
    requires Field("") == None
    ensures ReadFields(lines, 0, Fields("", "")) == ReadFields(lines, 2, Fields(ReadValue(name), ""))
  {
    hide Field;
    assert lines[2..2] == [];
    assert ReadField(lines, 0, Fields("", "")) == (Fields("", ""), 1);
    assert ReadField(lines, 1, Fields("", "")) == (Fields(ReadValue(name), ""), 2);
  }

  lemma KeyStartsFirstLine(key: string, rest: string)
    requires key != "" && '\n' !in key && forall i | 0 <= i < |key| :: IsKeyChar(key[i])
    ensures HasKey(Split(key + ":" + rest, '\n')[0])
  {
    hide Split, HasKey, Field;
    SplitPrefix(key + ":", rest, '\n');
    KeyLine(key, Split(rest, '\n')[0]);
  }

  lemma TailStarts(description: string)
    ensures HasKey(Split(DescriptionTail(description), '\n')[0])
  {
    hide Split, HasKey, TrimEnd;
    var yaml := DescriptionYaml(description);
    TrimEndKeepsKey(yaml);
    var rest := TrimEnd(" " + yaml);
    assert "description" + ":" + rest == "description:" + rest;
    KeyStartsFirstLine("description", rest);
  }

  lemma {:induction false} BlockEndSuffix(lines: seq<string>, n: nat, i: nat)
    requires n + i <= |lines|
    ensures BlockEnd(lines, n + i) == n + BlockEnd(lines[n..], i)
    decreases |lines| - n - i
  {
    if n + i < |lines| {
      BlockEndSuffix(lines, n, i + 1);
    }
  }

  /** Reading the end of a list of lines does not depend on its beginning. */
  lemma {:induction false} ReadFieldsSuffix(lines: seq<string>, n: nat, i: nat, f: Fields)
    requires n + i <= |lines|
    ensures ReadFields(lines, n + i, f) == ReadFields(lines[n..], i, f)
    decreases |lines| - n - i
  {
    hide Field, BlockValue, StripIndent, Put, BlockEnd;
    if n + i < |lines| {
      var (f', j) := ReadField(lines, n + i, f);
      BlockEndSuffix(lines, n, i + 1);
      var e := BlockEnd(lines, n + i + 1);
      assert lines[n + i + 1..e] == lines[n..][i + 1..e - n];
      assert ReadField(lines[n..], i, f) == (f', j - n);
      ReadFieldsSuffix(lines, n, j - n, f');
    }
  }

  // ------------------------------------------------------ values on one line

  lemma TrimTwice(v: string)
    ensures Trim(Trim(v)) == Trim(v)
    ensures Trim(v) == v ==> TrimStart(v) == v && TrimEnd(v) == v
  {
    var t := Trim(v);
    assert t != "" ==> t[0] == TrimStart(v)[0] && !IsSpace(t[0]);
  }

  lemma EmptyBlock(indicator: string)
    requires IsIndicator(indicator)
    ensures BlockValue("", indicator) == if indicator[|indicator| - 1] == '+' then "\n" else ""
  {
    assert Split("", '\n') == [""];
    assert Paragraphs([""], []) == Paragraphs([], []);
  }

  /** A value on a line of its own comes back exactly when it is trimmed, free of
      line terminators and not a block indicator. */
  predicate Plain(value: string) {
    Trim(value) == value && OneLine(value) && !IsIndicator(value)
  }

  lemma ReadValueExact(value: string)
    requires '\n' !in value
    ensures ReadValue(value) == value <==> Plain(value)
  {
    TrimTwice(value);
    if IsIndicator(Trim(value)) {
      EmptyBlock(Trim(value));
    }
    assert OneLine(value) ==> OneLine(TrimStart(value));
  }

  lemma ReadLastValueExact(value: string)
    requires '\n' !in value
    ensures ReadValue(TrimEnd(" " + value)) == value <==> Plain(value)
  {
    var r := TrimEnd(" " + value);
    if Plain(value) {
      TrimTwice(value);
      TrimEndUnique(" " + value, if value == "" then 0 else 1 + |value|);
      if value != "" {
        assert r == " " + value;
        LeadingBlank(value);
      }
    } else if ReadValue(r) == value {
      if OneLine(TrimStart(r)) && IsIndicator(Trim(r)) {
        EmptyBlock(Trim(r));
      }
      TrimTwice(r);
    }
  }

  lemma {:induction false} OneLineDescription(description: string, name: string)
    requires '\n' !in description
    ensures ReadFields(Split(DescriptionTail(description), '\n'), 0, Fields(name, ""))
      == Fields(name, ReadValue(TrimEnd(" " + description)))
  {
    hide Split, ReadValue, Field, TrimEnd, Trim, TrimStart, OneLine, ReadFields, DescriptionTail;
    var rest := TrimEnd(" " + description);
    OneLineTail(description);
    var line := DescriptionTail(description);
    DescriptionLine(line, rest);
    SplitOfPlain(line, '\n');
    SingleFieldLine(line, rest, name);
  }

  lemma DescriptionLine(line: string, rest: string)
    requires line == "description" + ":" + rest
    ensures Field(line) == if OneLine(TrimStart(rest)) then Some(("description", Trim(rest))) else None
  {
    hide Field, Trim, TrimStart, OneLine, HasKey;
    KeyLine("description", rest);
  }

  lemma OneLineTail(description: string)
    requires '\n' !in description
    ensures var rest := TrimEnd(" " + description);
      DescriptionTail(description) == "description" + ":" + rest && '\n' !in "description" + ":" + rest
  {
    hide TrimEnd;
    TrimEndKeepsKey(description);
    var rest := TrimEnd(" " + description);
    assert rest <= " " + description;
    assert "description" + ":" == "description:";
  }

  lemma SingleFieldLine(line: string, rest: string, name: string)
    requires Field(line) == if OneLine(TrimStart(rest)) then Some(("description", Trim(rest))) else None
    ensures ReadFields([line], 0, Fields(name, "")) == Fields(name, ReadValue(rest))
  {
    hide Field;
    var lines := [line];
    assert BlockEnd(lines, 1) == 1 && lines[1..1] == [];
    assert ReadField(lines, 0, Fields(name, "")) == (Fields(name, ReadValue(rest)), 1);
  }

  // ------------------------------------------------- descriptions of many lines

  /** A text with two blanks after every newline. */
  function Shifted(s: string): string {
    if s == "" then "" else ShiftedChar(s[0]) + Shifted(s[1..])
  }

  function ShiftedChar(c: char): string {
    if c == '\n' then "\n  " else [c]
  }

  lemma {:induction false} ShiftedConcat(a: string, b: string)
    ensures Shifted(a + b) == Shifted(a) + Shifted(b)
  {
    hide ShiftedChar;
    if a == "" {
      assert a + b == b;
    } else {
      ShiftedConcat(a[1..], b);
      assert (a + b)[1..] == a[1..] + b;
      var c, x, y := ShiftedChar(a[0]), Shifted(a[1..]), Shifted(b);
      assert c + (x + y) == c + x + y;
    }
  }

  lemma {:induction false} ShiftedSpace(s: string)
    requires AllSpace(s)
    ensures AllSpace(Shifted(s))
  {
    if s != "" {
      ShiftedSpace(s[1..]);
    }
  }

  lemma ShiftedLast(t: string)
    requires t != "" && !IsSpace(t[|t| - 1])
    ensures Shifted(t) != "" && !IsSpace(Shifted(t)[|Shifted(t)| - 1])
  {
    var k := |t| - 1;
    ShiftedConcat(t[..k], t[k..]);
    assert t == t[..k] + t[k..];
    assert Shifted(t[k..]) == ShiftedChar(t[k]) + Shifted(t[k..][1..]);
    assert t[k..][1..] == "";
  }

  lemma JoinHead(a: string, lines: seq<string>, sep: string)
    requires lines != []
    ensures Join([a + lines[0]] + lines[1..], sep) == a + Join(lines, sep)
  {
    var all := [a + lines[0]] + lines[1..];
    assert all[1..] == lines[1..];
    if |lines| > 1 {
      assert (a + lines[0]) + sep + Join(lines[1..], sep) == a + (lines[0] + sep + Join(lines[1..], sep));
    }
  }

  lemma {:induction false} IndentedJoin(s: string)
    ensures Join(Indented(Split(s, '\n')), "\n") == "  " + Shifted(s)
  {
    if s == "" {
      IndentedOne("");
    } else {
      IndentedJoin(s[1..]);
      IndentedJoinStep(s[0], Split(s[1..], '\n'), Shifted(s[1..]));
    }
  }

  lemma IndentedOne(line: string)
    ensures Indented([line]) == ["  " + line]
  {
    assert [line][1..] == [];
  }

  lemma {:induction false} IndentedJoinStep(c: char, rest: seq<string>, shifted: string)
    requires rest != [] && Join(Indented(rest), "\n") == "  " + shifted
    ensures c == '\n' ==> Join(Indented([""] + rest), "\n") == "  " + (ShiftedChar(c) + shifted)
    ensures c != '\n' ==> Join(Indented([[c] + rest[0]] + rest[1..]), "\n") == "  " + (ShiftedChar(c) + shifted)
  {
    hide Join, Indented;
    if c == '\n' {
      IndentedBlankFirst(rest);
      assert "  " + "\n" + ("  " + shifted) == "  " + ("\n  " + shifted);
    } else {
      IndentedCharFirst(rest, c);
      IndentedHead(rest);
      var x := Join([rest[0]] + Indented(rest[1..]), "\n");
      assert ("  " + x)[2..] == x && ("  " + shifted)[2..] == shifted;
      assert "  " + [c] + x == "  " + ([c] + x);
    }
  }

  lemma IndentedBlankFirst(rest: seq<string>)
    requires rest != []
    ensures Join(Indented([""] + rest), "\n") == "  " + "\n" + Join(Indented(rest), "\n")
  {
    var lines := [""] + rest;
    assert lines[1..] == rest && lines[0] == "";
    assert Indented(lines) == ["  " + ""] + Indented(rest);
    assert "  " + "" == "  ";
    var all := Indented(lines);
    assert all[0] == "  " && all[1..] == Indented(rest);
  }

  /** Indenting only prefixes the first line of what follows it. */
  lemma {:induction false} IndentedHead(lines: seq<string>)
    requires lines != []
    ensures Join(Indented(lines), "\n") == "  " + Join([lines[0]] + Indented(lines[1..]), "\n")
  {
    var tail := [lines[0]] + Indented(lines[1..]);
    assert Indented(lines) == ["  " + tail[0]] + tail[1..];
    JoinHead("  ", tail, "\n");
  }

  lemma IndentedCharFirst(rest: seq<string>, c: char)
    requires rest != []
    ensures Join(Indented([[c] + rest[0]] + rest[1..]), "\n") == "  " + [c] + Join([rest[0]] + Indented(rest[1..]), "\n")
  {
    var lines := [[c] + rest[0]] + rest[1..];
    IndentedHead(lines);
    assert lines[1..] == rest[1..];
    var tail := [rest[0]] + Indented(rest[1..]);
    assert [lines[0]] + Indented(lines[1..]) == [[c] + tail[0]] + tail[1..];
    JoinHead([c], tail, "\n");
  }

  /** The lines of the trimmed header from the description on. */
  function BlockLines(description: string): seq<string> {
    var t := TrimEnd(description);
    if t == "" then [] else Indented(Split(t, '\n'))
  }

  lemma BlockTail(description: string)
    requires '\n' in description
    ensures Split(DescriptionTail(description), '\n') == ["description: |"] + BlockLines(description)
  {
    hide Split, TrimEnd, Join, Indented, Shifted;
    var t := TrimEnd(description);
    var ws := description[|t|..];
    assert description == t + ws;
    IndentedJoin(description);
    ShiftedConcat(t, ws);
    ShiftedSpace(ws);
    var yaml := "|\n" + ("  " + (Shifted(t) + Shifted(ws)));
    assert DescriptionYaml(description) == yaml;
    assert "description: " + yaml == "description: |" + ("\n  " + Shifted(t) + Shifted(ws));
    TrimmedBlock("description: |", t, Shifted(ws));
  }

  lemma {:induction false} TrimmedBlock(head: string, t: string, ws: string)
    requires head != "" && !IsSpace(head[|head| - 1]) && '\n' !in head
    requires AllSpace(ws) && (t != "" ==> !IsSpace(t[|t| - 1]))
    ensures Split(TrimEnd(head + ("\n  " + Shifted(t) + ws)), '\n')
      == [head] + (if t == "" then [] else Indented(Split(t, '\n')))
  {
    hide Split, TrimEnd, Join, Indented, Shifted;
    if t == "" {
      BlankBlock(head, ws);
    } else {
      ShiftedLast(t);
      IndentedJoin(t);
      FullBlock(head, t, ws);
      var block := Indented(Split(t, '\n'));
      SplitSepFree(t, '\n');
      SplitJoin(block, '\n');
      SplitAtSep(head, '\n', Join(block, "\n"));
    }
  }

  lemma {:induction false} BlankBlock(head: string, ws: string)
    requires head != "" && !IsSpace(head[|head| - 1]) && '\n' !in head && AllSpace(ws)
    ensures Split(TrimEnd(head + ("\n  " + "" + ws)), '\n') == [head] + []
    ensures Shifted("") == ""
  {
    hide Split, TrimEnd;
    TrimEndUnique(head + ("\n  " + "" + ws), |head|);
    SplitOfPlain(head, '\n');
  }

  lemma FullBlock(head: string, t: string, ws: string)
    requires Shifted(t) != "" && !IsSpace(Shifted(t)[|Shifted(t)| - 1]) && AllSpace(ws)
    requires Join(Indented(Split(t, '\n')), "\n") == "  " + Shifted(t)
    ensures TrimEnd(head + ("\n  " + Shifted(t) + ws)) == head + ['\n'] + Join(Indented(Split(t, '\n')), "\n")
  {
    hide Split, TrimEnd, Shifted, Join, Indented;
    var all := head + ("\n  " + Shifted(t) + ws);
    TrimEndUnique(all, |head| + 3 + |Shifted(t)|);
    assert all[..|head| + 3 + |Shifted(t)|] == head + ['\n'] + ("  " + Shifted(t));
  }

  lemma BlockDescription(description: string, name: string)
    requires '\n' in description
    ensures ReadFields(Split(DescriptionTail(description), '\n'), 0, Fields(name, ""))
      == Fields(name, StripIndent(BlockLines(description)))
  {
    hide Split, StripIndent, Field, HasKey, TrimEnd;
    BlockTail(description);
    var block := BlockLines(description);
    var lines := ["description: |"] + block;
    assert "description: |" == "description" + ":" + " |";
    KeyLine("description", " |");
    PipeValue();
    forall k | 1 <= k < |lines|
      ensures InBlock(lines[k])
    {
      assert lines[k] == block[k - 1];
      NoKeyWhenIndented(lines[k]);
    }
    assert BlockEnd(lines, 1) == |lines| && lines[1..|lines|] == block;
    var x := StripIndent(block);
    JoinSplit(x, '\n');
    assert BlockValue(x, "|") == x;
    assert ReadField(lines, 0, Fields(name, "")) == (Fields(name, x), |lines|);
  }

  lemma PipeValue()
    ensures OneLine(TrimStart(" |")) && Trim(" |") == "|"
  {
    TrimStartUnique(" |", 1);
  }

  lemma NoKeyWhenIndented(line: string)
    requires line != "" && IsSpace(line[0])
    ensures !HasKey(line)
  {
  }

  lemma {:induction false} MinIndentMeaning(lines: seq<string>)
    ensures forall i | 0 <= i < |lines| && lines[i] != "" :: MinIndent(lines).Some? && MinIndent(lines).value <= LeadingSpaces(lines[i])
    ensures MinIndent(lines).Some? ==> exists i :: 0 <= i < |lines| && lines[i] != "" && MinIndent(lines).value == LeadingSpaces(lines[i])
  {
    if lines != [] {
      MinIndentMeaning(lines[1..]);
      var rest := MinIndent(lines[1..]);
      if rest.Some? {
        var i :| 0 <= i < |lines| - 1 && lines[1..][i] != "" && rest.value == LeadingSpaces(lines[1..][i]);
        assert lines[i + 1] == lines[1..][i];
      }
      forall i | 0 < i < |lines|
        ensures lines[i] == lines[1..][i - 1]
      {
      }
    }
  }

  lemma {:induction false} JoinShorter(a: seq<string>, b: seq<string>, sep: string)
    requires |a| == |b| > 0 && forall i | 0 <= i < |a| :: |a[i]| < |b[i]|
    ensures |Join(a, sep)| < |Join(b, sep)|
  {
    if |a| > 1 {
      JoinShorter(a[1..], b[1..], sep);
    }
  }

  predicate Unindented(lines: seq<string>) {
    exists i :: 0 <= i < |lines| && LeadingSpaces(lines[i]) == 0
  }

  lemma IndentedLine(line: string)
    ensures LeadingSpaces("  " + line) == 2 + LeadingSpaces(line)
  {
    TrimStartUnique("  " + line, 2 + LeadingSpaces(line));
  }

  /** The common indent of an indented block: two, and more only when every line had
      blanks of its own. */
  lemma {:induction false} IndentedCommon(lines: seq<string>)
    requires lines != []
    ensures var c := CommonIndent(Indented(lines));
      && c >= 2 && (c == 2 <==> Unindented(lines))
      && (forall i | 0 <= i < |lines| :: c <= 2 + LeadingSpaces(lines[i]))
  {
    hide IsSpace, LeadingSpaces, MinIndent;
    var block := Indented(lines);
    MinIndentMeaning(block);
    forall i | 0 <= i < |lines|
      ensures block[i] != "" && LeadingSpaces(block[i]) == 2 + LeadingSpaces(lines[i])
    {
      IndentedLine(lines[i]);
    }
    assert block[0] != "";
  }

  lemma DropIndent(line: string, c: nat)
    requires 2 <= c <= 2 + LeadingSpaces(line)
    ensures |Drop("  " + line, c)| == |line| + 2 - c && (c == 2 ==> Drop("  " + line, c) == line)
  {
  }

  /** Stripping takes back exactly the two blanks when some line had none of its
      own, and more than that otherwise. */
  lemma {:induction false} StripExact(lines: seq<string>)
    requires lines != []
    ensures Unindented(lines) ==> StripIndent(Indented(lines)) == Join(lines, "\n")
    ensures !Unindented(lines) ==> |StripIndent(Indented(lines))| < |Join(lines, "\n")|
  {
    hide LeadingSpaces, CommonIndent, Unindented, Join, Drop;
    var c := CommonIndent(Indented(lines));
    IndentedCommon(lines);
    var dropped := DropAll(Indented(lines), c);
    forall i | 0 <= i < |lines|
      ensures |dropped[i]| == |lines[i]| + 2 - c && (c == 2 ==> dropped[i] == lines[i])
    {
      DropIndent(lines[i], c);
    }
    if c == 2 {
      assert dropped == lines;
    } else {
      JoinShorter(dropped, lines, "\n");
    }
  }

  lemma BlockExact(description: string)
    requires '\n' in description
    ensures StripIndent(BlockLines(description)) == description
      <==> TrimEnd(description) == description && Unindented(Split(description, '\n'))
  {
    hide StripIndent, Split;
    var t := TrimEnd(description);
    if t == "" {
      NoLines();
    } else {
      StripExact(Split(t, '\n'));
      JoinSplit(t, '\n');
    }
  }

  lemma NoLines()
    ensures StripIndent([]) == ""
  {
  }

  // --------------------------------------------------- names of several lines

  lemma {:induction false} JoinLength(lines: seq<string>, k: nat)
    requires k < |lines|
    ensures |lines[k]| + |Join(lines[k + 1..], "\n")| <= |Join(lines, "\n")|
  {
    if |lines| == 1 {
      assert lines[1..] == [];
    } else if k > 0 {
      JoinLength(lines[1..], k - 1);
      assert lines[1..][k..] == lines[k + 1..];
    }
  }

  lemma {:induction false} JoinPrefixLength(lines: seq<string>, k: nat)
    requires k <= |lines|
    ensures |Join(lines[..k], "\n")| <= |Join(lines, "\n")|
  {
    if 0 < k && |lines| > 1 {
      JoinPrefixLength(lines[1..], k - 1);
      assert lines[..k][1..] == lines[1..][..k - 1];
    } else if k == 1 {
      assert lines[..1] == lines;
    }
  }

  lemma {:induction false} ParagraphsLength(lines: seq<string>, current: seq<string>)
    ensures |Join(Paragraphs(lines, current), "\n\n")| <= |Join(current + lines, "\n")|
  {
    SameLength(current);
    if lines == [] {
      assert current + lines == current;
    } else if lines[0] != "" {
      ParagraphsLength(lines[1..], current + [lines[0]]);
      assert current + [lines[0]] + lines[1..] == current + lines;
    } else {
      ParagraphsLength(lines[1..], []);
      assert [] + lines[1..] == lines[1..];
      JoinLength(lines, 0);
      if current == [] {
        assert current + lines == lines;
      } else {
        var rest := Paragraphs(lines[1..], []);
        assert ([Join(current, " ")] + rest)[1..] == rest;
        JoinAppend(current, lines, "\n");
      }
    }
  }

  lemma {:induction false} SameLength(lines: seq<string>)
    ensures |Join(lines, " ")| == |Join(lines, "\n")|
  {
    if |lines| > 1 {
      SameLength(lines[1..]);
    }
  }

  lemma {:induction false} DropAllLength(lines: seq<string>, n: nat)
    ensures |Join(DropAll(lines, n), "\n")| <= |Join(lines, "\n")|
  {
    if |lines| > 1 {
      DropAllLength(lines[1..], n);
    } else if |lines| == 1 {
      assert DropAll(lines, n) == [Drop(lines[0], n)];
    }
  }

  /** A block never reads back longer than its lines, but for one newline. */
  lemma {:induction false} BlockLength(block: seq<string>, indicator: string)
    requires IsIndicator(indicator)
    ensures |BlockValue(StripIndent(block), indicator)| <= |Join(block, "\n")| + 1
  {
    var raw := StripIndent(block);
    var lines := Split(raw, '\n');
    DropAllLength(block, CommonIndent(block));
    JoinSplit(raw, '\n');
    ParagraphsLength(lines, []);
    assert [] + lines == lines;
  }

  /** The line that sets a name of several lines is a block indicator. */
  predicate NameBlockAt(lines: seq<string>, k: nat) {
    k < |lines| && Field(lines[k]).Some? && IsIndicator(Field(lines[k]).value.1)
  }

  /** A name that contains a newline came from a block above the description, and
      is at most one longer than the lines of that block. */
  lemma {:induction false} LongNamesAreBlocks(lines: seq<string>, i: nat, f: Fields, e: nat)
    requires i <= |lines| && e < |lines| && HasKey(lines[e])
    requires NoNames(lines[e..])
    ensures var name := ReadFields(lines, i, f).name;
      name == f.name || '\n' !in name
      || exists k: nat :: i <= k < e && NameBlockAt(lines, k) && |name| <= |Join(lines[k + 1..e], "\n")| + 1
    decreases |lines| - i
  {
    hide StripIndent, BlockValue, Join, Field;
    if i < |lines| {
      var (f', j) := ReadField(lines, i, f);
      LongNamesAreBlocks(lines, j, f', e);
      if i >= e {
        assert lines[e..][i - e] == lines[i];
      } else if f'.name != f.name {
        NewName(lines, i, f, e);
      }
    }
  }

  lemma FieldValueOneLine(line: string)
    requires Field(line).Some?
    ensures '\n' !in Field(line).value.1
  {
    var rest := TrimStart(line[KeyLength(line) + 1..]);
    assert OneLine(rest) && TrimEnd(rest) <= rest;
  }

  lemma NewName(lines: seq<string>, i: nat, f: Fields, e: nat)
    requires i < e < |lines| && HasKey(lines[e])
    ensures var name := ReadField(lines, i, f).0.name;
      name == f.name || '\n' !in name
      || (NameBlockAt(lines, i) && |name| <= |Join(lines[i + 1..e], "\n")| + 1)
  {
    hide StripIndent, BlockValue, Join, HasKey, Field;
    var field := Field(lines[i]);
    if field.Some? {
      FieldValueOneLine(lines[i]);
      if IsIndicator(field.value.1) {
        var j := BlockEnd(lines, i + 1);
        assert j <= e;
        BlockLength(lines[i + 1..j], field.value.1);
        assert lines[i + 1..e][..j - i - 1] == lines[i + 1..j];
        JoinPrefixLength(lines[i + 1..e], j - i - 1);
      }
    }
  }

  /** A name with a newline in it never comes back. */
  lemma ManyLineNameIsLost(name: string, description: string)
    requires '\n' in name
    ensures ReadHeader(name, description).name != name
  {
    hide Split, Field, HasKey, Join, TrimEnd, DescriptionTail, NoNames, Header;
    var parts := Split(name, '\n');
    var tail := Split(DescriptionTail(description), '\n');
    HeaderLines(name, description);
    SplitPrefix("name: ", name, '\n');
    var first := "name: " + parts[0];
    var lines := [""] + ([first] + parts[1..]) + tail;
    var e := 1 + |parts|;
    assert lines[e] == tail[0];
    TailStarts(description);
    TailNames(description);
    assert lines[e..] == tail;
    LongNamesAreBlocks(lines, 0, Fields("", ""), e);
    if ReadHeader(name, description).name == name {
      var k: nat :| k < e && NameBlockAt(lines, k) && |name| <= |Join(lines[k + 1..e], "\n")| + 1;
      NoField();
      assert k != 0;
      assert lines[k + 1..e] == parts[k..];
      assert lines[k] == if k == 1 then "name: " + parts[0] else parts[k - 1];
      BlockTooShort(name, k, lines[k]);
    }
  }

  lemma TailNames(description: string)
    ensures NoNames(Split(DescriptionTail(description), '\n'))
  {
    hide Split, TrimEnd, HasKey, Field, NoNames, DescriptionTail;
    if '\n' in description {
      BlockTailNames(description);
    } else {
      LineTailNames(description);
    }
  }

  lemma BlockTailNames(description: string)
    requires '\n' in description
    ensures NoNames(Split(DescriptionTail(description), '\n'))
  {
    hide Split, TrimEnd, HasKey, Field, NoNames, DescriptionTail;
    BlockTail(description);
    assert "description: |" == "description" + ":" + " |";
    LineNames("description", " |");
    BlockNames("description: |", BlockLines(description));
  }

  lemma LineTailNames(description: string)
    requires '\n' !in description
    ensures NoNames(Split(DescriptionTail(description), '\n'))
  {
    hide Split, TrimEnd, HasKey, Field, NoNames, DescriptionTail;
    var rest := TrimEnd(" " + description);
    OneLineTail(description);
    SplitOfPlain("description" + ":" + rest, '\n');
    LineNames("description", rest);
  }

  predicate NoNames(lines: seq<string>) {
    forall m | 0 <= m < |lines| && Field(lines[m]).Some? :: Field(lines[m]).value.0 != "name"
  }

  lemma LineNames(key: string, rest: string)
    requires key != "" && key != "name" && forall i | 0 <= i < |key| :: IsKeyChar(key[i])
    ensures NoNames([key + ":" + rest])
  {
    hide Field, HasKey;
    KeyLine(key, rest);
  }

  lemma BlockNames(head: string, block: seq<string>)
    requires NoNames([head])
    requires forall m | 0 <= m < |block| :: block[m] != "" && IsSpace(block[m][0])
    ensures NoNames([head] + block)
  {
    hide Field, IsSpace;
    assert [head][0] == head;
    forall m | 0 <= m < |block|
      ensures Field(block[m]).None?
    {
      NoFieldWhenIndented(block[m]);
    }
  }

  lemma NoFieldWhenIndented(line: string)
    requires line != "" && IsSpace(line[0])
    ensures Field(line).None?
  {
    NoKeyWhenIndented(line);
  }

  lemma ManyParts(name: string)
    requires '\n' in name
    ensures |Split(name, '\n')| > 1
  {
    JoinSplit(name, '\n');
    SplitSepFree(name, '\n');
  }

  lemma {:induction false} BlockTooShort(name: string, k: nat, line: string)
    requires '\n' in name && 1 <= k <= |Split(name, '\n')|
    requires line == if k == 1 then "name: " + Split(name, '\n')[0] else Split(name, '\n')[k - 1]
    requires Field(line).Some? && IsIndicator(Field(line).value.1)
    ensures |name| > |Join(Split(name, '\n')[k..], "\n")| + 1
  {
    hide Split;
    var parts := Split(name, '\n');
    JoinSplit(name, '\n');
    JoinLength(parts, k - 1);
    ManyParts(name);
    if k == 1 {
      NameField(parts[0]);
      assert parts[0] != "";
      assert |Join(parts, "\n")| == |parts[0]| + 1 + |Join(parts[1..], "\n")|;
    }
  }

  // ------------------------------------------------------------- the theorem

  /** The skills a file can hold: a plain name without dashes; a description
      without dashes that is plain, or is several lines of which one starts in
      column one and the last ends in a mark; a body that starts with a mark. */
  ghost predicate Storable(name: string, description: string, body: string) {
    && Plain(name) && NoDashes(name)
    && NoDashes(description)
    && (if '\n' in description
        then TrimEnd(description) == description && Unindented(Split(description, '\n'))
        else Plain(description))
    && TrimStart(body) == body
  }

  lemma {:induction false} HeaderExact(name: string, description: string)
    ensures ReadHeader(name, description) == Fields(name, description) <==>
      && Plain(name)
      && (if '\n' in description
          then TrimEnd(description) == description && Unindented(Split(description, '\n'))
          else Plain(description))
  {
    hide ReadHeader, ReadValue, StripIndent, DescriptionTail, Trim, TrimEnd, Split;
    if '\n' in name {
      ManyLineNameIsLost(name, description);
      assert !Plain(name);
    } else {
      ReadHeaderOneLineName(name, description);
      ReadValueExact(name);
      if '\n' in description {
        BlockDescription(description, ReadValue(name));
        BlockExact(description);
      } else {
        OneLineDescription(description, ReadValue(name));
        ReadLastValueExact(description);
      }
    }
  }

  /** Writing a skill and reading the file back returns the skill exactly when it
      is storable. */
  lemma RoundTripExactly(name: string, description: string, body: string)
    ensures ParsedSkill(BuildSkillFile(name, description, body)) == Skill(name, description, body)
      <==> Storable(name, description, body)
  {
    hide ParsedSkill, BuildSkillFile, ReadHeader, Plain, NoDashes;
    ParsedFieldsNoDashes(BuildSkillFile(name, description, body));
    if NoDashes(name) && NoDashes(description) {
      ParsedBuilt(name, description, body);
      HeaderExact(name, description);
    }
  }

  /** A name that is trimmed, one line for `split` and free of dashes can still be
      lost: U+2028 ends a line for the dot of the key pattern. */
  lemma LineSeparatorLosesTheName(body: string)
    ensures ParsedSkill(BuildSkillFile("a\U{2028}b", "", body)).name != "a\U{2028}b"
  {
    hide ParsedSkill, BuildSkillFile;
    var name := "a\U{2028}b";
    NoDashesFree(name);
    NoDashesFree("");
    ParsedBuilt(name, "", body);
    ReadHeaderOneLineName(name, "");
    OneLineDescription("", ReadValue(name));
    ReadValueExact(name);
    assert IsLineTerminator(name[1]);
  }
}
