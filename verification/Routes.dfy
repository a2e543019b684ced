/** The admin app's hash routes (src/admin/app/routes.ts). */
module Routes {
  import opened Numbers
  import opened PercentEncoding
  import opened Text
  import opened Wrappers

  datatype Kind = Implementation | Refinement

  datatype RepoTab = SessionsTab | SkillsTab | IssuesTab | SettingsTab

  datatype Settings =
    | Server | Issues | Repositories | GithubIntegration | GitWorktrees | AgentBehavior | AiLlm | Users
    | Skills | Invitations

  datatype Route =
    | Dashboard
    | Repos
    | Repo(owner: string, repo: string, issue: Option<int>, kind: Option<Kind>, tab: Option<RepoTab>)
    | Working(workOwner: Option<string>, workRepo: Option<string>, workIssue: Option<int>, workKind: Option<Kind>)
    | NewIssue(newOwner: Option<string>, newRepo: Option<string>)
    | SettingsPage(page: Option<Settings>)

  function KindName(k: Kind): string {
    match k case Implementation => "implementation" case Refinement => "refinement"
  }

  function KindOf(s: Option<string>): Option<Kind> {
    if s == Some("implementation") then Some(Implementation)
    else if s == Some("refinement") then Some(Refinement)
    else None
  }

  function TabName(t: RepoTab): string {
    match t
    case SessionsTab => "sessions"
    case SkillsTab => "skills"
    case IssuesTab => "issues"
    case SettingsTab => "settings"
  }

  function TabOf(s: string): Option<RepoTab> {
    if s == "skills" then Some(SkillsTab)
    else if s == "issues" then Some(IssuesTab)
    else if s == "sessions" then Some(SessionsTab)
    else if s == "settings" then Some(SettingsTab)
    else None
  }

  function Slug(s: Settings): string {
    match s
    case Server => "server"
    case Issues => "issues"
    case Repositories => "repositories"
    case GithubIntegration => "github-integration"
    case GitWorktrees => "git-worktrees"
    case AgentBehavior => "agent-behavior"
    case AiLlm => "ai-llm"
    case Users => "users"
    case Skills => "skills"
    case Invitations => "invitations"
  }

  /** An unknown or missing slug opens the first tab. */
  function SettingsOf(slug: Option<string>): Settings {
    match slug
    case None => Server
    case Some(s) =>
      if s == "skills" then Skills
      else if s == "invitations" then Invitations
      else if s == "users" then Users
      else if s == "issues" then Issues
      else if s == "repositories" then Repositories
      else if s == "github-integration" then GithubIntegration
      else if s == "git-worktrees" then GitWorktrees
      else if s == "agent-behavior" then AgentBehavior
      else if s == "ai-llm" then AiLlm
      else Server
  }

  function WithoutFirst(s: string, c: char): string {
    if s != "" && s[0] == c then s[1..] else s
  }

  function NonBlank(parts: seq<string>): (r: seq<string>)
    ensures forall i | 0 <= i < |r| :: r[i] != ""
  {
    if parts == [] then [] else (if parts[0] == "" then [] else [parts[0]]) + NonBlank(parts[1..])
  }

  /** The path segments of a hash. */
  function Segments(hash: string): (r: seq<string>)
    ensures forall i | 0 <= i < |r| :: r[i] != ""
  {
    NonBlank(Split(WithoutFirst(WithoutFirst(hash, '#'), '/'), '/'))
  }

  function At(path: seq<string>, i: nat): (r: Option<string>)
    ensures r.Some? ==> r.value in path
  {
    if i < |path| then Some(path[i]) else None
  }

  function NumberAt(path: seq<string>, i: nat): Option<int> {
    if i < |path| then ParseInt(path[i]) else None
  }

  function ParseRepo(path: seq<string>): Outcome<Route>
    requires |path| >= 3
  {
    var owner, repo := Decode(path[1]), Decode(path[2]);
    if owner.None? || repo.None? then Threw
    else if |path| == 3 then Returned(Repo(owner.value, repo.value, None, None, Some(SessionsTab)))
    else
      var tab := TabOf(path[3]);
      if tab.Some? then Returned(Repo(owner.value, repo.value, NumberAt(path, 4), KindOf(At(path, 5)), tab))
      else Returned(Repo(owner.value, repo.value, ParseInt(path[3]), KindOf(At(path, 4)), Some(SessionsTab)))
  }

  function ParseWorking(path: seq<string>): Outcome<Route> {
    var owner := if |path| > 1 then Decode(path[1]) else Some("");
    var repo := if |path| > 2 then Decode(path[2]) else Some("");
    if owner.None? || repo.None? then Threw
    else
      Returned(Working(
        if |path| > 1 then owner else None, if |path| > 2 then repo else None, NumberAt(path, 3), KindOf(At(path, 4))))
  }

  function ParseNewIssue(path: seq<string>): Outcome<Route> {
    if |path| < 3 then Returned(NewIssue(None, None))
    else
      var owner, repo := Decode(path[1]), Decode(path[2]);
      if owner.None? || repo.None? then Threw else Returned(NewIssue(owner, repo))
  }

  function ParsePath(path: seq<string>): Outcome<Route> {
    if path == [] then Returned(Dashboard)
    else if path[0] == "new-issue" then ParseNewIssue(path)
    else if path[0] == "settings" then Returned(SettingsPage(Some(SettingsOf(At(path, 1)))))
    else if path[0] == "dashboard" then Returned(Dashboard)
    else if path[0] == "repos" then if |path| >= 3 then ParseRepo(path) else Returned(Repos)
    else if path[0] == "working" then ParseWorking(path)
    else Returned(Dashboard)
  }

  /** parseHash; Threw is the URIError of a malformed segment. */
  function ParseHash(hash: string): Outcome<Route> {
    ParsePath(Segments(hash))
  }

  predicate Given(s: Option<string>) {
    s.Some? && s.value != ""
  }

  function Numbered(issue: int, kind: Option<Kind>): string {
    "/" + IntText(issue) + "/" + KindName(if kind.Some? then kind.value else Implementation)
  }

  /** buildHash */
  function BuildHash(route: Route): string {
    match route
    case SettingsPage(page) => if page.Some? then "#/settings/" + Slug(page.value) else "#/settings"
    case Dashboard => "#/dashboard"
    case Repos => "#/repos"
    case NewIssue(owner, repo) =>
      if Given(owner) && Given(repo) then "#/new-issue/" + Encode(owner.value) + "/" + Encode(repo.value) else "#/new-issue"
    case Repo(owner, repo, issue, kind, tab) =>
      "#/repos/" + Encode(owner) + "/" + Encode(repo)
      + (if tab.Some? && tab.value != SessionsTab then "/" + TabName(tab.value) else "")
      + (if issue.Some? then Numbered(issue.value, kind) else "")
    case Working(owner, repo, issue, kind) =>
      if Given(owner) && Given(repo) && issue.Some?
      then "#/working/" + Encode(owner.value) + "/" + Encode(repo.value) + Numbered(issue.value, kind)
      else "#/working"
  }

  function Defaulted(kind: Option<Kind>): Option<Kind> {
    Some(if kind.Some? then kind.value else Implementation)
  }

  /** The route a link opens: default tab, default kind, incomplete parts dropped. */
  function Normalized(route: Route): Route {
    match route
    case SettingsPage(page) => SettingsPage(Some(if page.Some? then page.value else Server))
    case Dashboard => Dashboard
    case Repos => Repos
    case NewIssue(owner, repo) => if Given(owner) && Given(repo) then route else NewIssue(None, None)
    case Repo(owner, repo, issue, kind, tab) =>
      Repo(owner, repo, issue, if issue.Some? then Defaulted(kind) else None, Some(if tab.Some? then tab.value else SessionsTab))
    case Working(owner, repo, issue, kind) =>
      if Given(owner) && Given(repo) && issue.Some? then Working(owner, repo, issue, Defaulted(kind))
      else Working(None, None, None, None)
  }

  // ------------------------------------------------------------- the segments

  predicate AreSegments(parts: seq<string>) {
    forall i | 0 <= i < |parts| :: parts[i] != "" && '/' !in parts[i]
  }

  /** The hash of a list of segments. */
  function HashOf(parts: seq<string>): string {
    "#/" + Join(parts, "/")
  }

  lemma {:induction false} KeepsNonBlank(parts: seq<string>)
    requires AreSegments(parts)
    ensures NonBlank(parts) == parts
  {
    if parts != [] {
      KeepsNonBlank(parts[1..]);
      assert [parts[0]] + parts[1..] == parts;
    }
  }

  lemma SegmentsOfHash(parts: seq<string>)
    requires parts != [] && AreSegments(parts)
    ensures Segments(HashOf(parts)) == parts
  {
    var path := Join(parts, "/");
    assert WithoutFirst(HashOf(parts), '#') == "/" + path;
    assert WithoutFirst("/" + path, '/') == path;
    SplitJoin(parts, '/');
    KeepsNonBlank(parts);
  }

  lemma EncodedIsASegment(s: string)
    requires s != ""
    ensures AreSegments([Encode(s)])
  {
    EncodeIsEncoded(s);
    assert !IsUnreserved('/') && forall i | 0 <= i < |Encode(s)| :: IsUnreserved(Encode(s)[i]) || Encode(s)[i] == '%';
  }

  lemma NumberIsASegment(n: int)
    ensures AreSegments([IntText(n)]) && TabOf(IntText(n)).None?
  {
    NumberHasNo(n, '/');
    NumberHasNo(n, 's');
  }

  lemma KindsAreSegments()
    ensures forall k :: AreSegments([KindName(k)]) && KindOf(Some(KindName(k))) == Some(k)
  {
    assert KindName(Implementation)[0] != KindName(Refinement)[0];
  }

  lemma TabsAreSegments()
    ensures forall t :: AreSegments([TabName(t)]) && TabOf(TabName(t)) == Some(t)
  {
  }

  lemma SlugsAreSegments()
    ensures forall s :: AreSegments([Slug(s)]) && SettingsOf(Some(Slug(s))) == s
  {
  }

  // ------------------------------------------------------------- round trips

  function NumberedParts(issue: Option<int>, kind: Option<Kind>): seq<string> {
    if issue.None? then [] else [IntText(issue.value), KindName(if kind.Some? then kind.value else Implementation)]
  }

  lemma JoinTail(first: string, rest: seq<string>)
    ensures Join([first] + rest, "/") == first + (if rest == [] then "" else "/" + Join(rest, "/"))
  {
    assert ([first] + rest)[1..] == rest;
    if rest == [] {
      assert first + "" == first;
    }
  }

  function Tail(parts: seq<string>): string {
    if parts == [] then "" else "/" + Join(parts, "/")
  }

  lemma ThreeParts(word: string, o: string, r: string, rest: seq<string>)
    ensures HashOf([word, o, r] + rest) == "#/" + word + "/" + o + "/" + r + Tail(rest)
  {
    hide Join;
    JoinTail(r, rest);
    JoinTail(o, [r] + rest);
    JoinTail(word, [o] + ([r] + rest));
    assert [word, o, r] + rest == [word] + ([o] + ([r] + rest));
  }

  lemma SegmentsAppend(a: seq<string>, b: seq<string>)
    requires AreSegments(a) && AreSegments(b)
    ensures AreSegments(a + b)
  {
  }

  lemma NumberedTail(issue: Option<int>, kind: Option<Kind>)
    ensures Tail(NumberedParts(issue, kind)) == if issue.Some? then Numbered(issue.value, kind) else ""
    ensures AreSegments(NumberedParts(issue, kind))
  {
    hide IntText, KindName;
    if issue.Some? {
      var k := KindName(if kind.Some? then kind.value else Implementation);
      JoinTail(IntText(issue.value), [k]);
      assert [IntText(issue.value)] + [k] == NumberedParts(issue, kind);
      NumberIsASegment(issue.value);
      KindsAreSegments();
    }
  }

  lemma NamedSegments(word: string, owner: string, repo: string, rest: seq<string>)
    requires AreSegments([word]) && AreSegments(rest) && owner != "" && repo != ""
    ensures var parts := [word, Encode(owner), Encode(repo)] + rest;
      Segments(HashOf(parts)) == parts && Decode(parts[1]) == Some(owner) && Decode(parts[2]) == Some(repo)
  {
    hide Encode, Decode, Segments, HashOf, AreSegments;
    EncodedIsASegment(owner);
    EncodedIsASegment(repo);
    SegmentsAppend([Encode(owner)], [Encode(repo)]);
    SegmentsAppend([word], [Encode(owner)] + [Encode(repo)]);
    assert [word] + ([Encode(owner)] + [Encode(repo)]) == [word, Encode(owner), Encode(repo)];
    SegmentsAppend([word, Encode(owner), Encode(repo)], rest);
    SegmentsOfHash([word, Encode(owner), Encode(repo)] + rest);
    DecodeEncode(owner);
    DecodeEncode(repo);
  }

  /** What follows owner and repository in the link of a repository route. */
  function RepoRest(issue: Option<int>, kind: Option<Kind>, tab: Option<RepoTab>): seq<string> {
    (if tab.Some? && tab.value != SessionsTab then [TabName(tab.value)] else []) + NumberedParts(issue, kind)
  }

  lemma RepoTail(issue: Option<int>, kind: Option<Kind>, tab: Option<RepoTab>)
    ensures Tail(RepoRest(issue, kind, tab)) ==
      (if tab.Some? && tab.value != SessionsTab then "/" + TabName(tab.value) else "") + (if issue.Some? then Numbered(issue.value, kind) else "")
    ensures AreSegments(RepoRest(issue, kind, tab))
  {
    hide Join, TabName, NumberedParts, Numbered, AreSegments;
    NumberedTail(issue, kind);
    TabsAreSegments();
    var rest := NumberedParts(issue, kind);
    if tab.Some? && tab.value != SessionsTab {
      JoinTail(TabName(tab.value), rest);
      SegmentsAppend([TabName(tab.value)], rest);
    } else {
      assert [] + rest == rest;
    }
  }

  lemma RepoHash(owner: string, repo: string, issue: Option<int>, kind: Option<Kind>, tab: Option<RepoTab>)
    ensures BuildHash(Repo(owner, repo, issue, kind, tab)) == HashOf(["repos", Encode(owner), Encode(repo)] + RepoRest(issue, kind, tab))
  {
    hide Encode, Numbered, RepoRest, Tail, HashOf, TabName;
    var t := if tab.Some? && tab.value != SessionsTab then "/" + TabName(tab.value) else "";
    var n := if issue.Some? then Numbered(issue.value, kind) else "";
    RepoTail(issue, kind, tab);
    ThreeParts("repos", Encode(owner), Encode(repo), RepoRest(issue, kind, tab));
    var base := "#/repos/" + Encode(owner) + "/" + Encode(repo);
    assert "#/" + "repos" + "/" == "#/repos/";
    assert base + t + n == base + (t + n);
  }

  lemma RepoRoundTrip(owner: string, repo: string, issue: Option<int>, kind: Option<Kind>, tab: Option<RepoTab>)
    requires owner != "" && repo != ""
    ensures ParseHash(BuildHash(Repo(owner, repo, issue, kind, tab))) == Returned(Normalized(Repo(owner, repo, issue, kind, tab)))
  {
    hide BuildHash, Encode, Decode, IntText, ParseInt, Segments, HashOf, KindName, TabName, KindOf, TabOf, AreSegments;
    RepoHash(owner, repo, issue, kind, tab);
    RepoTail(issue, kind, tab);
    WordsAreSegments();
    NamedSegments("repos", owner, repo, RepoRest(issue, kind, tab));
    KindsAreSegments();
    TabsAreSegments();
    if issue.Some? {
      NumberIsASegment(issue.value);
      ParseIntText(issue.value);
    }
    NoKind();
  }

  lemma WordsAreSegments()
    ensures AreSegments(["repos"]) && AreSegments(["working"]) && AreSegments(["new-issue"]) && AreSegments(["settings"]) && AreSegments([])
  {
  }

  lemma NoKind()
    ensures KindOf(None).None?
  {
  }

  lemma WorkingRoundTrip(owner: string, repo: string, issue: int, kind: Option<Kind>)
    requires owner != "" && repo != ""
    ensures var route := Working(Some(owner), Some(repo), Some(issue), kind);
      ParseHash(BuildHash(route)) == Returned(Normalized(route))
  {
    hide Encode, Decode, IntText, ParseInt, Segments, KindName, KindOf, Numbered, HashOf, Tail, AreSegments;
    var rest := NumberedParts(Some(issue), kind);
    NumberedTail(Some(issue), kind);
    ThreeParts("working", Encode(owner), Encode(repo), rest);
    assert "#/" + "working" + "/" == "#/working/";
    WordsAreSegments();
    NamedSegments("working", owner, repo, rest);
    KindsAreSegments();
    ParseIntText(issue);
  }

  lemma NewIssueRoundTrip(owner: string, repo: string)
    requires owner != "" && repo != ""
    ensures ParseHash(BuildHash(NewIssue(Some(owner), Some(repo)))) == Returned(NewIssue(Some(owner), Some(repo)))
  {
    hide Encode, Decode, Segments, HashOf, AreSegments;
    ThreeParts("new-issue", Encode(owner), Encode(repo), []);
    assert "#/" + "new-issue" + "/" == "#/new-issue/";
    var hash := "#/new-issue/" + Encode(owner) + "/" + Encode(repo);
    assert hash + "" == hash;
    WordsAreSegments();
    NamedSegments("new-issue", owner, repo, []);
  }

  lemma SettingsRoundTrip(page: Option<Settings>)
    ensures ParseHash(BuildHash(SettingsPage(page))) == Returned(Normalized(SettingsPage(page)))
  {
    hide Segments, Slug, SettingsOf;
    var parts := ["settings"] + (if page.Some? then [Slug(page.value)] else []);
    JoinTail("settings", if page.Some? then [Slug(page.value)] else []);
    assert BuildHash(SettingsPage(page)) == HashOf(parts);
    SlugsAreSegments();
    assert AreSegments(["settings"]);
    SegmentsOfHash(parts);
    NoSlug();
  }

  lemma NoSlug()
    ensures SettingsOf(None) == Server
  {
  }

  /** The links of the screens without, or without complete, parameters. */
  lemma PlainLink(route: Route, word: string)
    requires word == match route
                     case Dashboard => "dashboard"
                     case Repos => "repos"
                     case Working(_, _, _, _) => "working"
                     case _ => "new-issue"
    requires route.Dashboard? || route.Repos? || Normalized(route) in [Working(None, None, None, None), NewIssue(None, None)]
    ensures ParseHash(BuildHash(route)) == Returned(Normalized(route))
  {
    hide Segments, Encode, Decode, Numbered;
    assert BuildHash(route) == "#/" + word;
    assert AreSegments([word]);
    SegmentsOfHash([word]);
  }

  /** A parsed repository route has a non-empty owner and repository. */
  lemma ParsedReposAreNamed(hash: string)
    ensures var r := ParseHash(hash); r.Returned? && r.value.Repo? ==> r.value.owner != "" && r.value.repo != ""
  {
    hide Segments, Decode;
    var path := Segments(hash);
    if |path| >= 3 {
      DecodedIsNonEmpty(path[1]);
      DecodedIsNonEmpty(path[2]);
    }
  }

  /** Every link opens the normalized route it was built from exactly when a repository
      route has a non-empty owner and repository, whatever characters they contain. */
  lemma RoundTrip(route: Route)
    ensures ParseHash(BuildHash(route)) == Returned(Normalized(route)) <==> (route.Repo? ==> route.owner != "" && route.repo != "")
  {
    hide Segments, Encode, Decode, Join;
    match route {
      case Repo(owner, repo, issue, kind, tab) =>
        if owner != "" && repo != "" {
          RepoRoundTrip(owner, repo, issue, kind, tab);
        } else {
          ParsedReposAreNamed(BuildHash(route));
        }
      case Working(owner, repo, issue, kind) =>
        if Given(owner) && Given(repo) && issue.Some? {
          WorkingRoundTrip(owner.value, repo.value, issue.value, kind);
        } else {
          PlainLink(route, "working");
        }
      case NewIssue(owner, repo) =>
        if Given(owner) && Given(repo) {
          NewIssueRoundTrip(owner.value, repo.value);
        } else {
          PlainLink(route, "new-issue");
        }
      case SettingsPage(page) => SettingsRoundTrip(page);
      case Dashboard => PlainLink(route, "dashboard");
      case Repos => PlainLink(route, "repos");
    }
  }

  lemma NormalizedIsStable(route: Route)
    ensures Normalized(Normalized(route)) == Normalized(route)
  {
  }

  /** Every route the parser yields, from any hash, can be linked: its link opens it
      normalized, and the link of what then opens leads to the same place again. */
  lemma ParsedRoutesCanBeLinked(hash: string)
    requires ParseHash(hash).Returned?
    ensures var landed := ParseHash(BuildHash(ParseHash(hash).value));
      && landed == Returned(Normalized(ParseHash(hash).value))
      && ParseHash(BuildHash(landed.value)) == landed
  {
    hide ParseHash, BuildHash, Normalized;
    var route := ParseHash(hash).value;
    ParsedReposAreNamed(hash);
    RoundTrip(route);
    var landed := ParseHash(BuildHash(route));
    ParsedReposAreNamed(BuildHash(route));
    RoundTrip(landed.value);
    NormalizedIsStable(route);
  }

  // ------------------------------------------------------- links cut short

  predicate Malformed(path: seq<string>, i: nat) {
    i < |path| && Decode(path[i]).None?
  }

  /** Which hashes throw: those whose owner or repository segment is no percent-encoding, on
      the three pages that read them; two of these want both segments to be there. */
  lemma ThrowsExactly(hash: string)
    ensures var path := Segments(hash);
      ParseHash(hash).Threw? <==>
        && path != [] && (path[0] in {"repos", "new-issue"} ==> |path| >= 3) && path[0] in {"repos", "new-issue", "working"}
        && (Malformed(path, 1) || Malformed(path, 2))
  {
    hide Decode, Segments, ParseInt, KindOf, TabOf, SettingsOf;
  }

  /** A link to the working page that breaks off still opens it with what is there. */
  lemma ShortWorkingLinks(owner: string, repo: string)
    requires owner != "" && repo != ""
    ensures ParseHash("#/working") == Returned(Working(None, None, None, None))
    ensures ParseHash(HashOf(["working", Encode(owner)])) == Returned(Working(Some(owner), None, None, None))
    ensures ParseHash(HashOf(["working", Encode(owner), Encode(repo)])) == Returned(Working(Some(owner), Some(repo), None, None))
  {
    hide Encode, Decode, Segments, AreSegments, HashOf;
    WordsAreSegments();
    NoKind();
    SegmentsOfHash(["working"]);
    OneWord("working");
    EncodedIsASegment(owner);
    SegmentsAppend(["working"], [Encode(owner)]);
    assert "#/" + "working" == "#/working";
    assert ["working"] + [Encode(owner)] == ["working", Encode(owner)];
    SegmentsOfHash(["working", Encode(owner)]);
    DecodeEncode(owner);
    NamedSegments("working", owner, repo, []);
    assert ["working", Encode(owner), Encode(repo)] + [] == ["working", Encode(owner), Encode(repo)];
  }

  lemma OneWord(word: string)
    ensures HashOf([word]) == "#/" + word
  {
  }
}
