/** Listing worktrees, the worktree limit, and creation
    (src/workspace/worktree.ts). */
module Eviction {
  import opened History
  import opened Sorting
  import opened Text
  import opened Worktree
  import opened Wrappers

  // ---------------------------------------------------------------- the list

  datatype Info = Info(path: Path, branch: Option<string>)

  const WORKTREE := "worktree "
  const BRANCH := "branch "

  /** What the parser still pushes; `current` is the block being read. */
  function ParseLines(lines: seq<string>, current: Option<Info>): seq<Info> {
    var flushed := if current.Some? then [current.value] else [];
    if lines == [] then flushed
    else if WORKTREE <= lines[0] then flushed + ParseLines(lines[1..], Some(Info(lines[0][|WORKTREE|..], None)))
    else if BRANCH <= lines[0] && current.Some? then
      ParseLines(lines[1..], Some(current.value.(branch := Some(lines[0][|BRANCH|..]))))
    else if lines[0] == "" && current.Some? then flushed + ParseLines(lines[1..], None)
    else ParseLines(lines[1..], current)
  }

  method ParseWorktreeList(stdout: string) returns (worktrees: seq<Info>)
    ensures worktrees == ParseLines(Split(stdout, '\n'), None)
  {
    hide Split;
    worktrees := [];
    var current: Option<Info> := None;
    var lines := Split(stdout, '\n');
    var i := 0;
    assert lines[0..] == lines;
    while i < |lines|
      invariant 0 <= i <= |lines|
      invariant worktrees + ParseLines(lines[i..], current) == ParseLines(lines, None)
    {
      var line := lines[i];
      ghost var before, was := worktrees, current;
      assert lines[i..][0] == line && lines[i..][1..] == lines[i + 1..];
      if WORKTREE <= line {
        if current.Some? {
          worktrees := worktrees + [current.value];
        }
        current := Some(Info(line[|WORKTREE|..], None));
      } else if BRANCH <= line && current.Some? {
        current := Some(current.value.(branch := Some(line[|BRANCH|..])));
      } else if line == "" && current.Some? {
        worktrees := worktrees + [current.value];
        current := None;
      }
      Regroup(before, if worktrees == before then [] else [was.value], ParseLines(lines[i + 1..], current), worktrees);
      i := i + 1;
    }
    if current.Some? {
      worktrees := worktrees + [current.value];
    }
  }

  lemma Regroup<T>(a: seq<T>, b: seq<T>, c: seq<T>, ab: seq<T>)
    requires ab == a + b
    ensures ab + c == a + (b + c)
  {
  }

  /** One block of `git worktree list --porcelain`. */
  datatype Block = Block(path: Path, head: Option<string>, branch: Option<string>, notes: seq<string>)

  function Printed(b: Block): seq<string> {
    [WORKTREE + b.path] + (if b.head.Some? then ["HEAD " + b.head.value] else ["bare"])
    + (if b.branch.Some? then [BRANCH + b.branch.value] else []) + b.notes + [""]
  }

  function PrintedAll(blocks: seq<Block>): seq<string> {
    if blocks == [] then [""] else Printed(blocks[0]) + PrintedAll(blocks[1..])
  }

  function Infos(blocks: seq<Block>): seq<Info> {
    if blocks == [] then [] else [Info(blocks[0].path, blocks[0].branch)] + Infos(blocks[1..])
  }

  /** The further lines of a block: `detached`, `locked`, `prunable`. */
  predicate IsNote(line: string) {
    line != "" && '\n' !in line && !(WORKTREE <= line) && !(BRANCH <= line)
  }

  predicate Printable(b: Block) {
    && '\n' !in b.path && (b.head.Some? ==> '\n' !in b.head.value) && (b.branch.Some? ==> '\n' !in b.branch.value)
    && forall i | 0 <= i < |b.notes| :: IsNote(b.notes[i])
  }

  lemma {:induction false} NotesAreSkipped(notes: seq<string>, rest: seq<string>, info: Info)
    requires forall i | 0 <= i < |notes| :: IsNote(notes[i])
    ensures ParseLines(notes + rest, Some(info)) == ParseLines(rest, Some(info))
  {
    if notes == [] {
      assert notes + rest == rest;
    } else {
      assert IsNote(notes[0]);
      NotesAreSkipped(notes[1..], rest, info);
      assert (notes + rest)[1..] == notes[1..] + rest;
    }
  }

  lemma BlockIsParsed(b: Block, rest: seq<string>)
    requires Printable(b)
    ensures ParseLines(Printed(b) + rest, None) == [Info(b.path, b.branch)] + ParseLines(rest, None)
  {
    hide ParseLines;
    var head := if b.head.Some? then "HEAD " + b.head.value else "bare";
    var branch := if b.branch.Some? then [BRANCH + b.branch.value] else [];
    var tail := b.notes + ([""] + rest);
    assert Printed(b) + rest == [WORKTREE + b.path] + ([head] + (branch + tail));
    FirstLine(b.path, [head] + (branch + tail));
    HeadLine(head, branch + tail, b.path, b.head);
    if b.branch.Some? {
      BranchLine(b.branch.value, tail, b.path);
    } else {
      assert branch + tail == tail;
    }
    NotesAreSkipped(b.notes, [""] + rest, Info(b.path, b.branch));
    BlankLine(Info(b.path, b.branch), rest);
  }

  lemma FirstLine(path: Path, rest: seq<string>)
    ensures ParseLines([WORKTREE + path] + rest, None) == ParseLines(rest, Some(Info(path, None)))
  {
    assert (WORKTREE + path)[|WORKTREE|..] == path;
    assert ([WORKTREE + path] + rest)[1..] == rest;
    assert [] + ParseLines(rest, Some(Info(path, None))) == ParseLines(rest, Some(Info(path, None)));
  }

  lemma HeadLine(line: string, rest: seq<string>, path: Path, head: Option<string>)
    requires line == if head.Some? then "HEAD " + head.value else "bare"
    ensures ParseLines([line] + rest, Some(Info(path, None))) == ParseLines(rest, Some(Info(path, None)))
  {
    assert ([line] + rest)[1..] == rest;
    assert line[0] != WORKTREE[0] && (line[0] != BRANCH[0] || line[1] != BRANCH[1]);
  }

  lemma BranchLine(branch: string, rest: seq<string>, path: Path)
    ensures ParseLines([BRANCH + branch] + rest, Some(Info(path, None))) == ParseLines(rest, Some(Info(path, Some(branch))))
  {
    assert (BRANCH + branch)[|BRANCH|..] == branch && (BRANCH + branch)[0] != WORKTREE[0];
    assert ([BRANCH + branch] + rest)[1..] == rest;
  }

  lemma BlankLine(info: Info, rest: seq<string>)
    ensures ParseLines([""] + rest, Some(info)) == [info] + ParseLines(rest, None)
  {
    assert ([""] + rest)[1..] == rest;
  }

  lemma {:induction false} BlocksAreParsed(blocks: seq<Block>)
    requires forall i | 0 <= i < |blocks| :: Printable(blocks[i])
    ensures ParseLines(PrintedAll(blocks), None) == Infos(blocks)
  {
    hide Printed, Printable;
    if blocks == [] {
      var none: seq<string> := [""][1..];
      assert none == [];
      assert ParseLines([""], None) == ParseLines(none, None);
    } else {
      BlockIsParsed(blocks[0], PrintedAll(blocks[1..]));
      BlocksAreParsed(blocks[1..]);
    }
  }

  lemma {:induction false} PrintedLinesArePlain(blocks: seq<Block>)
    requires forall i | 0 <= i < |blocks| :: Printable(blocks[i])
    ensures PrintedAll(blocks) != [] && SepFree(PrintedAll(blocks), '\n')
  {
    if blocks != [] {
      PrintedLinesArePlain(blocks[1..]);
    }
  }

  /** The parser reads back every list git prints, each line ended by a line feed. */
  lemma {:induction false} ListRoundTrip(blocks: seq<Block>)
    requires forall i | 0 <= i < |blocks| :: Printable(blocks[i])
    ensures ParseLines(Split(Join(PrintedAll(blocks), "\n"), '\n'), None) == Infos(blocks)
  {
    hide PrintedAll, ParseLines, Printable, Split, Join, Infos;
    PrintedLinesArePlain(blocks);
    SplitJoin(PrintedAll(blocks), '\n');
    BlocksAreParsed(blocks);
  }

  // --------------------------------------------------------------- the order

  datatype Strategy = Fifo | Lru

  /** What `stat` answers, None when it fails. */
  datatype Stats = Stats(birthtime: int, ctime: int, mtime: int)

  /** The time a candidate is ranked by; None stands for positive infinity. */
  function Rank(strategy: Strategy, stats: Option<Stats>): Option<int> {
    if stats.None? then None
    else if strategy.Lru? then Some(stats.value.mtime)
    else Some(if stats.value.birthtime != 0 then stats.value.birthtime else stats.value.ctime)
  }

  predicate NotLater(a: Option<int>, b: Option<int>) {
    b.None? || (a.Some? && a.value <= b.value)
  }

  type Candidate = (Path, Option<int>)

  const BY_TIME: (Candidate, Candidate) -> bool := (a: Candidate, b: Candidate) => NotLater(a.1, b.1)

  lemma ByTimeIsAnOrder()
    ensures TotalPreorder(BY_TIME)
  {
  }

  function Ranked(paths: seq<Path>, strategy: Strategy, stats: Path -> Option<Stats>): (r: seq<Candidate>)
    ensures |r| == |paths| && forall i | 0 <= i < |r| :: r[i] == (paths[i], Rank(strategy, stats(paths[i])))
  {
    if paths == [] then [] else [(paths[0], Rank(strategy, stats(paths[0])))] + Ranked(paths[1..], strategy, stats)
  }

  /** sortWorktreesForEviction */
  function Victims(paths: seq<Path>, strategy: Strategy, stats: Path -> Option<Stats>): seq<Candidate> {
    Sort(BY_TIME, Ranked(paths, strategy, stats))
  }

  lemma RankedByStats(paths: seq<Path>, strategy: Strategy, stats: Path -> Option<Stats>, c: Candidate)
    requires c in multiset(Ranked(paths, strategy, stats))
    ensures c.1 == Rank(strategy, stats(c.0))
  {
    var ranked := Ranked(paths, strategy, stats);
    var i :| 0 <= i < |ranked| && ranked[i] == c;
  }

  /** Nothing is known of the second, or the first was used (under lru) or created (under fifo)
      no later; where the file system keeps no time of creation the status change stands in. */
  predicate GoesBefore(strategy: Strategy, first: Option<Stats>, second: Option<Stats>) {
    second.Some? ==>
      && first.Some?
      && (strategy == Lru ==> first.value.mtime <= second.value.mtime)
      && (strategy == Fifo && first.value.birthtime != 0 && second.value.birthtime != 0 ==>
            first.value.birthtime <= second.value.birthtime)
      && (strategy == Fifo && first.value.birthtime == 0 && second.value.birthtime == 0 ==>
            first.value.ctime <= second.value.ctime)
  }

  /** The victims are the candidates, none twice more or less, oldest first; those whose
      times tie, and those without a time, keep the order of the list. */
  lemma {:induction false} VictimsAreOldestFirst(paths: seq<Path>, strategy: Strategy, stats: Path -> Option<Stats>)
    ensures var v := Victims(paths, strategy, stats);
      && multiset(v) == multiset(Ranked(paths, strategy, stats))
      && (forall i, j | 0 <= i < j < |v| :: NotLater(v[i].1, v[j].1))
      && (forall c :: Ties(BY_TIME, c, v) == Ties(BY_TIME, c, Ranked(paths, strategy, stats)))
      && (forall p :: p in paths <==> exists c :: c in v && c.0 == p)
  {
    ByTimeIsAnOrder();
    var ranked := Ranked(paths, strategy, stats);
    var v := Victims(paths, strategy, stats);
    SortIsStable(BY_TIME, ranked);
    SortKeepsMembers(BY_TIME, ranked);
    forall i, j | 0 <= i < j < |v|
      ensures NotLater(v[i].1, v[j].1)
    {
      assert BY_TIME(v[i], v[j]);
    }
    forall p
      ensures p in paths <==> exists c :: c in v && c.0 == p
    {
      if i :| 0 <= i < |paths| && paths[i] == p {
        assert ranked[i] in v;
      }
    }
  }

  /** In terms of what `stat` says of the directories. */
  lemma VictimsGoByStats(paths: seq<Path>, strategy: Strategy, stats: Path -> Option<Stats>, i: nat, j: nat)
    requires i < j < |Victims(paths, strategy, stats)|
    ensures var v := Victims(paths, strategy, stats); GoesBefore(strategy, stats(v[i].0), stats(v[j].0))
  {
    hide Victims, Rank, Ranked;
    var v := Victims(paths, strategy, stats);
    VictimsAreOldestFirst(paths, strategy, stats);
    assert v[i] in multiset(v) && v[j] in multiset(v);
    RankedByStats(paths, strategy, stats, v[i]);
    RankedByStats(paths, strategy, stats, v[j]);
    RankMeansBefore(strategy, stats(v[i].0), stats(v[j].0));
  }

  lemma RankMeansBefore(strategy: Strategy, first: Option<Stats>, second: Option<Stats>)
    requires NotLater(Rank(strategy, first), Rank(strategy, second))
    ensures GoesBefore(strategy, first, second)
  {
  }

  // -------------------------------------------------------------- the limit

  /** The loop over the victims: the first removal that succeeds ends it. The result is
      the index of the evicted victim. */
  function Evict(repo: Repo, victims: seq<Candidate>, a: Path -> RemovalAnswers): Ended<nat>
    decreases |victims|
  {
    if victims == [] then Ended(repo, Threw)
    else
      var r := SafeRemoval(repo, victims[0].0, a(victims[0].0));
      if r.result.Returned? then Ended(r.repo, Returned(0))
      else
        var later := Evict(r.repo, victims[1..], a);
        Ended(later.repo, if later.result.Threw? then Threw else Returned(later.result.value + 1))
  }

  datatype Limits = Limits(
    max: int, strategy: Strategy, listed: bool, stats: Path -> Option<Stats>, removals: Path -> RemovalAnswers)

  /** enforceWorktreeLimit; None when nothing had to be evicted. A list that cannot be
      read counts as empty. */
  function EnforceLimit(repo: Repo, e: Limits): Ended<Option<nat>> {
    var list := if e.listed then repo.registered else [];
    if |list| < e.max then Ended(repo, Returned(None))
    else
      var r := Evict(repo, Victims(list, e.strategy, e.stats), e.removals);
      Ended(r.repo, if r.result.Threw? then Threw else Returned(Some(r.result.value)))
  }

  predicate QuarantinedButNotPruned(a: RemovalAnswers) {
    a.permission && a.mkdir && a.rename && !a.prune
  }

  /** The repository after the first `k` victims were tried. */
  function Tried(repo: Repo, victims: seq<Candidate>, a: Path -> RemovalAnswers, k: nat): Repo
    requires k <= |victims|
    decreases k
  {
    if k == 0 then repo else Tried(SafeRemoval(repo, victims[0].0, a(victims[0].0)).repo, victims[1..], a, k - 1)
  }

  /** The eviction forces away a tree with work that could not be stashed. */
  predicate EvictionLoses(repo: Repo, victims: seq<Candidate>, a: Path -> RemovalAnswers) {
    var r := Evict(repo, victims, a);
    r.result.Returned? && r.result.value < |victims| &&
    var v := victims[r.result.value].0;
    LosesPinned(Tried(repo, victims, a, r.result.value), v, a(v))
  }

  /** Failed removals lose nothing; the eviction loses work exactly when the one that
      succeeds does. */
  lemma {:induction false} EvictKeepsWork(repo: Repo, victims: seq<Candidate>, a: Path -> RemovalAnswers)
    ensures AllWork(Evict(repo, victims, a).repo) == AllWork(repo) <==> !EvictionLoses(repo, victims, a)
    ensures AllWork(Evict(repo, victims, a).repo) <= AllWork(repo)
    decreases |victims|
  {
    hide AllWork, SafeRemoval, LosesPinned;
    if victims != [] {
      var first := SafeRemoval(repo, victims[0].0, a(victims[0].0));
      RemovalKeepsWork(repo, victims[0].0, a(victims[0].0));
      EvictKeepsWork(first.repo, victims[1..], a);
    }
  }

  predicate LimitLoses(repo: Repo, e: Limits) {
    var list := if e.listed then repo.registered else [];
    |list| >= e.max && EvictionLoses(repo, Victims(list, e.strategy, e.stats), e.removals)
  }

  lemma EnforceLimitKeepsWork(repo: Repo, e: Limits)
    ensures AllWork(EnforceLimit(repo, e).repo) == AllWork(repo) <==> !LimitLoses(repo, e)
  {
    hide AllWork, Evict, Victims, EvictionLoses;
    var list := if e.listed then repo.registered else [];
    EvictKeepsWork(repo, Victims(list, e.strategy, e.stats), e.removals);
  }

  /** The evicted worktree is the first, oldest first, whose removal did not fail: every
      earlier one was tried and failed, and no later one was touched. Only its directory
      is gone, besides those moved to quarantine when pruning failed. */
  lemma {:induction false} EvictsTheFirst(repo: Repo, victims: seq<Candidate>, a: Path -> RemovalAnswers)
    ensures var r := Evict(repo, victims, a);
      && (r.result.Threw? ==> r.repo == Tried(repo, victims, a, |victims|) && r.repo.registered == repo.registered)
      && (r.result.Returned? ==>
            var k := r.result.value;
            && k < |victims|
            && r.repo == SafeRemoval(Tried(repo, victims, a, k), victims[k].0, a(victims[k].0)).repo
            && victims[k].0 !in r.repo.registered && victims[k].0 !in r.repo.trees)
      && (forall i | 0 <= i < (if r.result.Returned? then r.result.value else |victims|) ::
            SafeRemoval(Tried(repo, victims, a, i), victims[i].0, a(victims[i].0)).result.Threw?)
      && (forall p | p in repo.trees && p !in r.repo.trees ::
            || (r.result.Returned? && p == victims[r.result.value].0)
            || QuarantinedButNotPruned(a(p)))
      && (forall p | p in r.repo.trees :: p in repo.trees)
    decreases |victims|
  {
    hide SafeRemoval;
    if victims != [] {
      var v := victims[0].0;
      var first := SafeRemoval(repo, v, a(v));
      RemovalTakesOneTree(repo, v, a(v));
      RemovalAddsNoTree(repo, v, a(v));
      if first.result.Threw? {
        EvictsTheFirst(first.repo, victims[1..], a);
        var r := Evict(repo, victims, a);
        forall i | 1 <= i < (if r.result.Returned? then r.result.value else |victims|)
          ensures SafeRemoval(Tried(repo, victims, a, i), victims[i].0, a(victims[i].0)).result.Threw?
        {
          assert victims[1..][i - 1] == victims[i];
        }
      }
    }
  }

  lemma RemovalAddsNoTree(repo: Repo, path: Path, a: RemovalAnswers)
    ensures forall p :: p in SafeRemoval(repo, path, a).repo.trees ==> p in repo.trees
  {
    hide AllWork;
  }

  // --------------------------------------------------------------- creation

  /** `before` is the listing worktreeExists reads; `add` covers the branch update and
      `git worktree add`. */
  datatype CreateAnswers = CreateAnswers(
    ensured: bool, before: bool, prune: bool, limits: Limits, refs: bool, base: Commit, add: bool)

  /** `git worktree add` refuses a directory that is already there. */
  function Add(repo: Repo, path: Path, head: Commit, add: bool): Ended<()> {
    if !add || path in repo.trees then Ended(repo, Threw)
    else Ended(repo.(trees := repo.trees[path := Tree(head, {}, {})], registered := Without(repo.registered, path) + [path]), Returned(()))
  }

  /** createOrGetWorktree */
  function CreateOrGet(repo: Repo, path: Path, a: CreateAnswers): Ended<()> {
    if !a.ensured then Ended(repo, Threw)
    else if Exists(repo, path, a.before) then Ended(repo, Returned(()))
    else if !a.prune then Ended(repo, Threw)
    else
      var limited := EnforceLimit(Prune(repo), a.limits);
      if limited.result.Threw? || !a.refs then Ended(limited.repo, Threw)
      else Add(limited.repo, path, a.base, a.add)
  }

  lemma AddKeepsWork(repo: Repo, path: Path, head: Commit, add: bool)
    ensures AllWork(Add(repo, path, head, add).repo) == AllWork(repo)
  {
    var after := Add(repo, path, head, add).repo;
    assert forall p <- repo.trees :: p in after.trees && after.trees[p] == repo.trees[p];
    assert forall p <- after.trees :: p in repo.trees || Held(after.trees[p]) == {};
  }

  /** Creating or finding a worktree loses uncommitted work exactly when it gets as far as
      the limit and the eviction loses some. */
  lemma CreateKeepsWork(repo: Repo, path: Path, a: CreateAnswers)
    ensures AllWork(CreateOrGet(repo, path, a).repo) == AllWork(repo)
      <==> !(a.ensured && !Exists(repo, path, a.before) && a.prune && LimitLoses(Prune(repo), a.limits))
  {
    hide AllWork, EnforceLimit, OnDisk, LimitLoses;
    PruneKeepsWork(repo);
    EnforceLimitKeepsWork(Prune(repo), a.limits);
    AddKeepsWork(EnforceLimit(Prune(repo), a.limits).repo, path, a.base, a.add);
  }

  lemma {:induction false} EvictCounts(repo: Repo, victims: seq<Candidate>, a: Path -> RemovalAnswers)
    requires forall i | 0 <= i < |victims| :: victims[i].0 in repo.registered
    ensures var r := Evict(repo, victims, a);
      |r.repo.registered| <= |repo.registered| - (if r.result.Returned? then 1 else 0)
    decreases |victims|
  {
    hide SafeRemoval;
    if victims != [] {
      var v := victims[0].0;
      RemovalTakesOneTree(repo, v, a(v));
      RemovalCounts(repo, v, a(v));
      var first := SafeRemoval(repo, v, a(v));
      if first.result.Threw? {
        EvictCounts(first.repo, victims[1..], a);
      }
    }
  }

  lemma RemovalCounts(repo: Repo, path: Path, a: RemovalAnswers)
    requires path in repo.registered
    ensures var r := SafeRemoval(repo, path, a);
      |r.repo.registered| <= |repo.registered| - (if r.result.Returned? then 1 else 0)
  {
    hide AllWork, Without, StashIfDirty;
    StashingBeforeRemoval(repo, path, a);
    var s := StashIfDirty(repo, path, a.status, a.identity, a.push).repo;
    PruneDropsMissing(s.registered, s.trees - {path}, path);
  }

  lemma {:induction false} PruneDropsMissing(registered: seq<Path>, trees: map<Path, Tree>, path: Path)
    requires path in registered && path !in trees
    ensures |OnDisk(registered, trees)| < |registered|
  {
    if registered[0] != path {
      PruneDropsMissing(registered[1..], trees, path);
    }
  }

  /** Given that the listings succeed, creation never ends with more registered worktrees
      than the limit or than there were. */
  lemma CreationRespectsTheLimit(repo: Repo, path: Path, a: CreateAnswers)
    requires a.limits.listed
    ensures var after := CreateOrGet(repo, path, a).repo;
      |after.registered| <= |repo.registered| || |after.registered| <= a.limits.max
  {
    hide SafeRemoval, Evict, Victims, Without, OnDisk;
    var pruned := Prune(repo);
    var victims := Victims(pruned.registered, a.limits.strategy, a.limits.stats);
    VictimsAreOldestFirst(pruned.registered, a.limits.strategy, a.limits.stats);
    forall i | 0 <= i < |victims|
      ensures victims[i].0 in pruned.registered
    {
      assert victims[i] in victims;
    }
    EvictCounts(pruned, victims, a.limits.removals);
  }

  /** The removal of victim `k` succeeds and those of all earlier victims fail. */
  predicate FirstToGo(repo: Repo, victims: seq<Candidate>, a: Path -> RemovalAnswers, k: nat) {
    && k < |victims|
    && SafeRemoval(Tried(repo, victims, a, k), victims[k].0, a(victims[k].0)).result.Returned?
    && forall i | 0 <= i < k :: SafeRemoval(Tried(repo, victims, a, i), victims[i].0, a(victims[i].0)).result.Threw?
  }

  /** Creation evicts at most one worktree, at whatever exit: a directory that is gone
      afterwards belongs to the first victim, oldest first, whose removal did not fail, or
      was moved to quarantine by a removal that failed at pruning. */
  lemma CreationEvictsAtMostOne(repo: Repo, path: Path, a: CreateAnswers)
    requires a.limits.listed
    ensures var after := CreateOrGet(repo, path, a).repo; var pruned := Prune(repo);
      var victims := Victims(pruned.registered, a.limits.strategy, a.limits.stats);
      && (forall p | IsGone(repo, after, a, p) :: exists k: nat :: FirstToGo(pruned, victims, a.limits.removals, k) && victims[k].0 == p)
      && (forall p, q | IsGone(repo, after, a, p) && IsGone(repo, after, a, q) :: p == q)
  {
    hide SafeRemoval, Tried, Evict, Victims, OnDisk, Without;
    var pruned := Prune(repo);
    var victims := Victims(pruned.registered, a.limits.strategy, a.limits.stats);
    EvictsTheFirst(pruned, victims, a.limits.removals);
    var r := Evict(pruned, victims, a.limits.removals);
    if r.result.Returned? {
      VictimWentFirst(pruned, victims, a.limits.removals);
    }
  }

  /** The directory was there, is there no more, and was not just moved to quarantine. */
  predicate IsGone(repo: Repo, after: Repo, a: CreateAnswers, p: Path) {
    p in repo.trees && p !in after.trees && !QuarantinedButNotPruned(a.limits.removals(p))
  }

  lemma VictimWentFirst(repo: Repo, victims: seq<Candidate>, a: Path -> RemovalAnswers)
    requires Evict(repo, victims, a).result.Returned?
    ensures FirstToGo(repo, victims, a, Evict(repo, victims, a).result.value)
  {
    hide SafeRemoval;
    EvictsTheFirst(repo, victims, a);
    EvictedSucceeds(repo, victims, a);
  }

  lemma {:induction false} EvictedSucceeds(repo: Repo, victims: seq<Candidate>, a: Path -> RemovalAnswers)
    requires Evict(repo, victims, a).result.Returned?
    ensures var k := Evict(repo, victims, a).result.value;
      k < |victims| && SafeRemoval(Tried(repo, victims, a, k), victims[k].0, a(victims[k].0)).result.Returned?
    decreases |victims|
  {
    hide SafeRemoval;
    var first := SafeRemoval(repo, victims[0].0, a(victims[0].0));
    if first.result.Threw? {
      EvictedSucceeds(first.repo, victims[1..], a);
    }
  }

  /** When the listing fails nothing is evicted, and the limit can be exceeded. */
  lemma UnreadListExceedsTheLimit(repo: Repo, path: Path, a: CreateAnswers)
    requires !a.limits.listed && a.limits.max > 0 && path !in repo.registered && path !in repo.trees
    requires forall p <- repo.registered :: p in repo.trees
    requires a.ensured && a.prune && a.refs && a.add
    ensures var after := CreateOrGet(repo, path, a).repo; |after.registered| == |repo.registered| + 1
  {
    NothingToPrune(repo.registered, repo.trees);
    NothingToDrop(repo.registered, path);
  }

  lemma {:induction false} NothingToPrune(registered: seq<Path>, trees: map<Path, Tree>)
    requires forall p <- registered :: p in trees
    ensures OnDisk(registered, trees) == registered
  {
    if registered != [] {
      NothingToPrune(registered[1..], trees);
    }
  }

  lemma {:induction false} NothingToDrop(registered: seq<Path>, path: Path)
    requires path !in registered
    ensures Without(registered, path) == registered
  {
    if registered != [] {
      NothingToDrop(registered[1..], path);
    }
  }

  /** A returned worktree is registered, and on disk with a clean tree at the base, unless it
      was found registered. */
  lemma CreatedIsThere(repo: Repo, path: Path, a: CreateAnswers)
    requires CreateOrGet(repo, path, a).result.Returned?
    ensures var after := CreateOrGet(repo, path, a).repo;
      && path in after.registered
      && (if Exists(repo, path, a.before) then after == repo else path in after.trees && after.trees[path] == Tree(a.base, {}, {}))
  {
    hide EnforceLimit, Without, OnDisk;
  }

  // ------------------------------------------------------- when creation works

  /** An attempt that fails does not change for whom removal works. */
  lemma FailedRemovalChangesNoChances(repo: Repo, path: Path, a: Path -> RemovalAnswers, other: Path)
    requires SafeRemoval(repo, path, a(path)).result.Threw?
    ensures RemovalWorks(SafeRemoval(repo, path, a(path)).repo, other, a(other)) <==> RemovalWorks(repo, other, a(other))
  {
    hide SafeRemoval, RemovalWorks;
    RemovalReturnsExactly(repo, path, a(path));
    RemovalTakesOneTree(repo, path, a(path));
    if other == path {
      StillRefused(repo, path, a(path));
    } else {
      OtherTreesKeepTheirChances(repo, SafeRemoval(repo, path, a(path)).repo, other, a(other));
      OtherTreesStayAway(repo, path, a(path), other);
    }
  }

  lemma OtherTreesStayAway(repo: Repo, path: Path, a: RemovalAnswers, other: Path)
    ensures other in SafeRemoval(repo, path, a).repo.trees ==> other in repo.trees
  {
    hide SafeRemoval;
    RemovalAddsNoTree(repo, path, a);
  }

  lemma OtherTreesKeepTheirChances(before: Repo, after: Repo, path: Path, a: RemovalAnswers)
    requires after.registered == before.registered && (path in before.trees ==> path in after.trees && after.trees[path] == before.trees[path])
    ensures path in before.trees ==> (RemovalWorks(after, path, a) <==> RemovalWorks(before, path, a))
    ensures path !in before.trees && path !in after.trees ==> (RemovalWorks(after, path, a) <==> RemovalWorks(before, path, a))
  {
  }

  lemma StillRefused(repo: Repo, path: Path, a: RemovalAnswers)
    requires !RemovalWorks(repo, path, a)
    ensures !RemovalWorks(SafeRemoval(repo, path, a).repo, path, a)
  {
    hide AllWork, OnDisk, Without;
  }

  /** The eviction evicts the first of the victims whose removal works, and throws exactly
      when there is none. */
  lemma {:induction false} EvictsExactly(repo: Repo, victims: seq<Candidate>, a: Path -> RemovalAnswers)
    ensures var r := Evict(repo, victims, a);
      && (r.result.Returned? ==> r.result.value < |victims| && RemovalWorks(repo, victims[r.result.value].0, a(victims[r.result.value].0)))
      && (forall i | 0 <= i < (if r.result.Returned? then r.result.value else |victims|) ::
            !RemovalWorks(repo, victims[i].0, a(victims[i].0)))
    decreases |victims|
  {
    hide SafeRemoval, RemovalWorks;
    if victims != [] {
      var v := victims[0].0;
      RemovalReturnsExactly(repo, v, a(v));
      var first := SafeRemoval(repo, v, a(v));
      if first.result.Threw? {
        EvictsExactly(first.repo, victims[1..], a);
        forall p
          ensures RemovalWorks(first.repo, p, a(p)) <==> RemovalWorks(repo, p, a(p))
        {
          FailedRemovalChangesNoChances(repo, v, a, p);
        }
        forall i | 0 < i < |victims|
          ensures victims[i] == victims[1..][i - 1]
        {
        }
      }
    }
  }

  /** There are fewer worktrees than the limit, as far as the listing says, or one of those
      listed can be removed. */
  predicate HasRoom(repo: Repo, e: Limits) {
    var list := if e.listed then repo.registered else [];
    |list| < e.max || exists p <- list :: RemovalWorks(repo, p, e.removals(p))
  }

  /** Making room evicts nobody below the limit, the first removable victim at it, and throws
      exactly when nobody can be removed. */
  lemma EnforcesExactly(repo: Repo, e: Limits)
    ensures var r := EnforceLimit(repo, e); var list := if e.listed then repo.registered else [];
      && (r.result.Returned? <==> HasRoom(repo, e))
      && (|list| < e.max <==> r.result == Returned(None))
      && (|list| < e.max ==> r.repo == repo)
  {
    hide Evict, Victims, RemovalWorks;
    var list := if e.listed then repo.registered else [];
    if |list| >= e.max {
      var victims := Victims(list, e.strategy, e.stats);
      EvictsExactly(repo, victims, e.removals);
      VictimsAreOldestFirst(list, e.strategy, e.stats);
      if p :| p in list && RemovalWorks(repo, p, e.removals(p)) {
        var c :| c in victims && c.0 == p;
        var i :| 0 <= i < |victims| && victims[i] == c;
      }
      var r := Evict(repo, victims, e.removals);
      if r.result.Returned? {
        assert victims[r.result.value] in victims;
        assert victims[r.result.value].0 in list;
      }
    }
  }

  /** Which creations return: those of a worktree that is listed, and those for which there is
      room after pruning and git can add the directory, which must not be there. */
  lemma CreationReturnsExactly(repo: Repo, path: Path, a: CreateAnswers)
    ensures CreateOrGet(repo, path, a).result.Returned? <==>
      && a.ensured
      && ((a.before && path in repo.registered)
          || (a.prune && HasRoom(Prune(repo), a.limits) && a.refs && a.add && path !in EnforceLimit(Prune(repo), a.limits).repo.trees))
  {
    hide EnforceLimit, HasRoom, OnDisk, Without;
    EnforcesExactly(Prune(repo), a.limits);
  }

  // -------------------------------------------------------- the running steps

  method EnforceWorktreeLimit(m: WorktreeManager, e: Limits) returns (evicted: Outcome<Option<nat>>)
    modifies m
    ensures EnforceLimit(old(m.Snapshot()), e) == Ended(m.Snapshot(), evicted)
  {
    hide SafeRemoval, Victims;
    var list := if e.listed then m.registered else [];
    if |list| < e.max {
      return Returned(None);
    }
    var victims := Victims(list, e.strategy, e.stats);
    ghost var all := Evict(m.Snapshot(), victims, e.removals);
    var i := 0;
    assert victims[0..] == victims;
    while i < |victims|
      invariant 0 <= i <= |victims|
      invariant var rest := Evict(m.Snapshot(), victims[i..], e.removals);
        all == Ended(rest.repo, if rest.result.Threw? then Threw else Returned(rest.result.value + i))
    {
      assert victims[i..][0] == victims[i] && victims[i..][1..] == victims[i + 1..];
      var removal := m.PerformSafeRemoval(victims[i].0, e.removals(victims[i].0));
      if removal.Returned? {
        return Returned(Some(i));
      }
      i := i + 1;
    }
    return Threw;
  }

  method CreateOrGetWorktree(m: WorktreeManager, path: Path, a: CreateAnswers) returns (ok: bool)
    modifies m
    ensures CreateOrGet(old(m.Snapshot()), path, a) == Ended(m.Snapshot(), if ok then Returned(()) else Threw)
  {
    hide EnforceLimit;
    if !a.ensured {
      return false;
    }
    if Exists(m.Snapshot(), path, a.before) {
      return true;
    }
    if !a.prune {
      return false;
    }
    m.PruneWorktrees();
    var evicted := EnforceWorktreeLimit(m, a.limits);
    if evicted.Threw? || !a.refs || !a.add || path in m.trees {
      return false;
    }
    m.trees := m.trees[path := Tree(a.base, {}, {})];
    m.registered := Without(m.registered, path) + [path];
    return true;
  }
}
