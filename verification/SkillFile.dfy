/** SKILL.md files: the frontmatter printer and parser of
    src/skills/repo-skill-service.ts. */
module SkillFile {
  import opened Wrappers
  import opened Text

  datatype Skill = Skill(name: string, description: string, body: string)

  // ------------------------------------------------------------------ printer

  /** `description.split("\n").map((l) => "  " + l)` */
  function Indented(lines: seq<string>): (r: seq<string>)
    ensures |r| == |lines| && forall i | 0 <= i < |r| :: r[i] == "  " + lines[i]
  {
    if lines == [] then [] else ["  " + lines[0]] + Indented(lines[1..])
  }

  function DescriptionYaml(description: string): string {
    if '\n' in description then "|\n" + Join(Indented(Split(description, '\n')), "\n") else description
  }

  function Header(name: string, description: string): string {
    "\nname: " + name + "\ndescription: " + DescriptionYaml(description) + "\n"
  }

  function BuildSkillFile(name: string, description: string, body: string): string {
    "---" + Header(name, description) + "---" + ("\n\n" + body)
  }

  // ------------------------------------------------------------ indentation

  /** The least indent of the lines that are not empty. */
  function MinIndent(lines: seq<string>): Option<nat> {
    if lines == [] then None
    else
      var rest := MinIndent(lines[1..]);
      if lines[0] == "" then rest
      else if rest.Some? && rest.value <= LeadingSpaces(lines[0]) then rest
      else Some(LeadingSpaces(lines[0]))
  }

  function CommonIndent(lines: seq<string>): nat {
    var min := MinIndent(lines);
    if min.None? then 0 else min.value
  }

  /** `line.slice(n)` */
  function Drop(line: string, n: nat): string {
    if n <= |line| then line[n..] else ""
  }

  function DropAll(lines: seq<string>, n: nat): (r: seq<string>)
    ensures |r| == |lines| && forall i | 0 <= i < |r| :: r[i] == Drop(lines[i], n)
  {
    if lines == [] then [] else [Drop(lines[0], n)] + DropAll(lines[1..], n)
  }

  function StripIndent(lines: seq<string>): string {
    Join(DropAll(lines, CommonIndent(lines)), "\n")
  }

  method GetCommonIndent(lines: seq<string>) returns (indent: nat)
    ensures indent == CommonIndent(lines)
    ensures forall i | 0 <= i < |lines| && lines[i] != "" :: indent <= LeadingSpaces(lines[i])
    ensures (exists i :: 0 <= i < |lines| && lines[i] != "") ==>
      exists i :: 0 <= i < |lines| && lines[i] != "" && indent == LeadingSpaces(lines[i])
  {
    var min: Option<nat> := None;
    var n := 0;
    while n < |lines|
      invariant 0 <= n <= |lines|
      invariant min == MinIndent(lines[..n])
      invariant forall k | 0 <= k < n && lines[k] != "" :: min.Some? && min.value <= LeadingSpaces(lines[k])
      invariant min.Some? ==> exists k :: 0 <= k < n && lines[k] != "" && min.value == LeadingSpaces(lines[k])
    {
      MinIndentSnoc(lines[..n], lines[n]);
      assert lines[..n + 1] == lines[..n] + [lines[n]];
      if lines[n] != "" {
        var len := LeadingSpaces(lines[n]);
        if min.None? || len < min.value {
          min := Some(len);
        }
      }
      n := n + 1;
    }
    assert lines[..n] == lines;
    indent := if min.None? then 0 else min.value;
  }

  lemma {:induction false} MinIndentSnoc(lines: seq<string>, line: string)
    ensures MinIndent(lines + [line]) ==
      var min := MinIndent(lines);
      if line == "" || (min.Some? && min.value <= LeadingSpaces(line)) then min else Some(LeadingSpaces(line))
  {
    if lines == [] {
      assert [line][1..] == [];
    } else {
      MinIndentSnoc(lines[1..], line);
      assert (lines + [line])[1..] == lines[1..] + [line];
    }
  }

  // ----------------------------------------------------------- block scalars

  /** `/^[>|]([+-])?$/` */
  predicate IsIndicator(value: string) {
    value in {"|", ">", "|+", "|-", ">+", ">-"}
  }

  /** The paragraphs of a folded block; `current` is the one being collected. */
  function Paragraphs(lines: seq<string>, current: seq<string>): seq<string> {
    if lines == [] then (if current == [] then [] else [Join(current, " ")])
    else if lines[0] != "" then Paragraphs(lines[1..], current + [lines[0]])
    else if current == [] then Paragraphs(lines[1..], [])
    else [Join(current, " ")] + Paragraphs(lines[1..], [])
  }

  function Chomped(text: string, indicator: string): string
    requires IsIndicator(indicator)
  {
    if indicator[|indicator| - 1] == '+' then text + "\n"
    else if indicator[|indicator| - 1] == '-' then TrimEnd(text)
    else text
  }

  function BlockValue(raw: string, indicator: string): string
    requires IsIndicator(indicator)
  {
    var lines := Split(raw, '\n');
    Chomped(if indicator[0] == '>' then Join(Paragraphs(lines, []), "\n\n") else Join(lines, "\n"), indicator)
  }

  method ParseBlockScalar(raw: string, indicator: string) returns (value: string)
    requires IsIndicator(indicator)
    ensures value == BlockValue(raw, indicator)
  {
    var lines := Split(raw, '\n');
    if indicator[0] == '>' {
      var paragraphs: seq<string> := [];
      var current: seq<string> := [];
      var i := 0;
      while i < |lines|
        invariant 0 <= i <= |lines|
        invariant Paragraphs(lines[0..], []) == paragraphs + Paragraphs(lines[i..], current)
      {
        assert lines[i..][1..] == lines[i + 1..];
        if lines[i] == "" {
          if |current| > 0 {
            paragraphs := paragraphs + [Join(current, " ")];
            current := [];
          }
        } else {
          current := current + [lines[i]];
        }
        i := i + 1;
      }
      if |current| > 0 {
        paragraphs := paragraphs + [Join(current, " ")];
      }
      assert lines[0..] == lines && paragraphs == Paragraphs(lines, []);
      return Chomped(Join(paragraphs, "\n\n"), indicator);
    }
    return Chomped(Join(lines, "\n"), indicator);
  }

  // ------------------------------------------------------------------ parser

  predicate IsKeyChar(c: char) {
    'a' <= c <= 'z' || 'A' <= c <= 'Z' || '0' <= c <= '9' || c == '_' || c == '-'
  }

  function KeyLength(line: string): (n: nat)
    ensures n <= |line| && (forall i | 0 <= i < n :: IsKeyChar(line[i])) && (n < |line| ==> !IsKeyChar(line[n]))
  {
    if line == [] || !IsKeyChar(line[0]) then 0 else 1 + KeyLength(line[1..])
  }

  // /^([a-zA-Z0-9_-]+):\s*/
  predicate HasKey(line: string) {
    var n := KeyLength(line);
    0 < n < |line| && line[n] == ':'
  }

  /** A line has a key when a colon follows one or more key characters. */
  lemma KeyLinesAre(line: string)
    ensures HasKey(line) <==> exists n :: 0 < n < |line| && line[n] == ':' && forall i | 0 <= i < n :: IsKeyChar(line[i])
  {
    assert !IsKeyChar(':');
  }

  /** Key characters are the ASCII letters and digits, the underscore and the dash. */
  lemma KeyCharactersAre()
    ensures forall c <- ['a', 'z', 'A', 'Z', '0', '9', '_', '-'] :: IsKeyChar(c)
    ensures forall c <- ['`', '{', '@', '[', '/', ':', '.', ' '] :: !IsKeyChar(c)
  {
  }

  // /^([a-zA-Z0-9_-]+):\s*(.*)$/u, the value trimmed. The dot stops at line
  // terminators, so a value with one inside does not match at all.
  function Field(line: string): Option<(string, string)> {
    var n := KeyLength(line);
    if HasKey(line) && OneLine(TrimStart(line[n + 1..])) then Some((line[..n], Trim(line[n + 1..]))) else None
  }

  predicate InBlock(line: string) {
    !HasKey(line) && (line == "" || IsSpace(line[0]))
  }

  /** The end of the block that starts at `i`. */
  function BlockEnd(lines: seq<string>, i: nat): (j: nat)
    requires i <= |lines|
    ensures i <= j <= |lines| && (forall k | i <= k < j :: InBlock(lines[k])) && (j < |lines| ==> !InBlock(lines[j]))
    decreases |lines| - i
  {
    if i < |lines| && InBlock(lines[i]) then BlockEnd(lines, i + 1) else i
  }

  method CollectBlockLines(lines: seq<string>, startIndex: nat) returns (block: seq<string>, nextIndex: nat)
    requires startIndex <= |lines|
    ensures nextIndex == BlockEnd(lines, startIndex) && block == lines[startIndex..nextIndex]
  {
    hide HasKey, IsSpace;
    block := [];
    var i := startIndex;
    while i < |lines|
      invariant startIndex <= i <= |lines|
      invariant block == lines[startIndex..i]
      invariant BlockEnd(lines, i) == BlockEnd(lines, startIndex)
    {
      var line := lines[i];
      if HasKey(line) {
        break;
      }
      if line == "" {
        block := block + [""];
        i := i + 1;
        continue;
      }
      if IsSpace(line[0]) {
        block := block + [line];
        i := i + 1;
      } else {
        break;
      }
    }
    nextIndex := i;
  }

  datatype Fields = Fields(name: string, description: string)

  function Put(f: Fields, key: string, value: string): Fields {
    if key == "name" then f.(name := value) else if key == "description" then f.(description := value) else f
  }

  /** One key line and what it sets; the index after it. */
  function ReadField(lines: seq<string>, i: nat, f: Fields): (r: (Fields, nat))
    requires i < |lines|
    ensures i < r.1 <= |lines|
  {
    match Field(lines[i])
    case None => (f, i + 1)
    case Some((key, value)) =>
      if IsIndicator(value) then
        var j := BlockEnd(lines, i + 1);
        (Put(f, key, BlockValue(StripIndent(lines[i + 1..j]), value)), j)
      else (Put(f, key, value), i + 1)
  }

  function ReadFields(lines: seq<string>, i: nat, f: Fields): Fields
    requires i <= |lines|
    decreases |lines| - i
  {
    if i == |lines| then f else var (f', j) := ReadField(lines, i, f); ReadFields(lines, j, f')
  }

  predicate DashesAt(s: string, i: nat) {
    i + 2 < |s| && s[i] == '-' && s[i + 1] == '-' && s[i + 2] == '-'
  }

  /** `s.indexOf("---", from)` */
  function IndexOfDashes(s: string, from: nat): (i: int)
    ensures i == -1 || (from <= i && DashesAt(s, i) && forall k: nat | from <= k < i :: !DashesAt(s, k))
    ensures i == -1 ==> forall k: nat | from <= k :: !DashesAt(s, k)
    decreases |s| - from
  {
    if from + 3 > |s| then -1 else if DashesAt(s, from) then from else IndexOfDashes(s, from + 1)
  }

  function ParsedSkill(content: string): Skill {
    var trimmed := TrimStart(content);
    if !DashesAt(trimmed, 0) then Skill("", "", content)
    else
      var end := IndexOfDashes(trimmed, 3);
      if end == -1 then Skill("", "", content)
      else
        var f := ReadFields(Split(TrimEnd(trimmed[3..end]), '\n'), 0, Fields("", ""));
        Skill(f.name, f.description, TrimStart(trimmed[end + 3..]))
  }

  /** The scan ends because the index strictly grows in every branch. */
  method ParseSkillFile(content: string) returns (skill: Skill)
    ensures skill == ParsedSkill(content)
  {
    hide Split, TrimEnd, TrimStart, Field, IsIndicator, IndexOfDashes, BlockEnd, BlockValue;
    var trimmed := TrimStart(content);
    if !DashesAt(trimmed, 0) {
      return Skill("", "", content);
    }
    var end := IndexOfDashes(trimmed, 3);
    if end == -1 {
      return Skill("", "", content);
    }
    var lines := Split(TrimEnd(trimmed[3..end]), '\n');
    var fields := Fields("", "");
    var i := 0;
    while i < |lines|
      invariant 0 <= i <= |lines|
      invariant ReadFields(lines, i, fields) == ReadFields(lines, 0, Fields("", ""))
      decreases |lines| - i
    {
      var field := Field(lines[i]);
      if field.Some? {
        var key, value := field.value.0, field.value.1;
        if IsIndicator(value) {
          var block, nextIndex := CollectBlockLines(lines, i + 1);
          var indent := GetCommonIndent(block);
          var parsed := ParseBlockScalar(Join(DropAll(block, indent), "\n"), value);
          fields := Put(fields, key, parsed);
          i := nextIndex;
        } else {
          fields := Put(fields, key, value);
          i := i + 1;
        }
      } else {
        i := i + 1;
      }
    }
    skill := Skill(fields.name, fields.description, TrimStart(trimmed[end + 3..]));
  }
}
