/** Working trees, the shared stash, and the steps that move uncommitted work
    between them (src/workspace/worktree.ts).

    A repository is a value here; every git command is a function from
    repositories to repositories whose success the environment decides within
    what git allows. `WorktreeManager` runs the same commands on its fields. */
module Worktree {
  import opened History
  import opened Wrappers

  type Path = string
  type Edit = nat            // a piece of uncommitted, non-ignored work
  type Work = set<Edit>

  /** A working tree on disk: the head of its branch and its uncommitted work. `git
      status` reports all of it; `dirty` is what `git stash push -u` saves, `pinned` what it
      leaves behind, such as a change inside a submodule. */
  datatype Tree = Tree(head: Commit, dirty: Work, pinned: Work)

  function Held(tree: Tree): Work {
    tree.dirty + tree.pinned
  }

  /** `registered` is what `git worktree list` shows besides the bare repository;
      `stash` is one stack for all trees, its top first; `origin` holds the
      remote-tracking refs. */
  datatype Repo = Repo(
    trees: map<Path, Tree>, registered: seq<Path>, stash: seq<Work>, quarantine: seq<Work>,
    origin: map<string, Commit>)

  /** A command ended, normally or by a rejection, and left this repository. */
  datatype Ended<T> = Ended(repo: Repo, result: Outcome<T>)

  datatype PopAnswer = Pops | Conflicts(applied: Work)

  datatype SyncAnswers = SyncAnswers(
    listed: bool, fetched: Option<map<string, Commit>>, status: bool, identity: bool, push: bool,
    verified: bool, merge: bool, pop: PopAnswer, setUrl: bool)

  datatype RemovalAnswers = RemovalAnswers(
    status: bool, identity: bool, push: bool, remove: bool, force: bool, permission: bool,
    mkdir: bool, rename: bool, prune: bool)

  /** All uncommitted work the repository still has somewhere. */
  function AllWork(repo: Repo): Work {
    (set p, e | p in repo.trees && e in Held(repo.trees[p]) :: e)
    + (set i, e | 0 <= i < |repo.stash| && e in repo.stash[i] :: e)
    + (set i, e | 0 <= i < |repo.quarantine| && e in repo.quarantine[i] :: e)
  }

  // ------------------------------------------------------------- git commands

  /** `git status` failing counts as dirty. */
  predicate HasAnyChanges(repo: Repo, path: Path, status: bool) {
    !status || path !in repo.trees || Held(repo.trees[path]) != {}
  }

  /** `git stash push -u`: with nothing to save it leaves the stack as it is and succeeds. */
  function StashPush(repo: Repo, path: Path): Repo
    requires path in repo.trees
  {
    var tree := repo.trees[path];
    if tree.dirty == {} then repo
    else repo.(trees := repo.trees[path := tree.(dirty := {})], stash := [tree.dirty] + repo.stash)
  }

  /** `git stash pop` takes the top entry, whichever tree pushed it. A conflict
      leaves the entry on the stack and part of it in the tree. */
  function StashPop(repo: Repo, path: Path, pop: PopAnswer): Ended<()>
    requires path in repo.trees
  {
    if repo.stash == [] then Ended(repo, Threw)
    else
      var tree := repo.trees[path];
      match pop
      case Pops =>
        Ended(repo.(trees := repo.trees[path := tree.(dirty := tree.dirty + repo.stash[0])], stash := repo.stash[1..]), Returned(()))
      case Conflicts(applied) =>
        Ended(repo.(trees := repo.trees[path := tree.(dirty := tree.dirty + applied * repo.stash[0])]), Threw)
  }

  /** `git merge --ff-only` */
  function MergeFastForward(repo: Repo, path: Path, target: Commit, merge: bool): Ended<()>
    requires path in repo.trees
  {
    var tree := repo.trees[path];
    if merge && Ancestor(target, tree.head) then Ended(repo, Returned(()))
    else if merge && Ancestor(tree.head, target) then
      Ended(repo.(trees := repo.trees[path := tree.(head := target)]), Returned(()))
    else Ended(repo, Threw)
  }

  /** `git worktree prune` drops the entries whose directory is gone. */
  function OnDisk(registered: seq<Path>, trees: map<Path, Tree>): (r: seq<Path>)
    ensures forall p :: p in r <==> p in registered && p in trees
    ensures |r| <= |registered|
  {
    if registered == [] then []
    else (if registered[0] in trees then [registered[0]] else []) + OnDisk(registered[1..], trees)
  }

  function Prune(repo: Repo): Repo {
    repo.(registered := OnDisk(repo.registered, repo.trees))
  }

  function Without(paths: seq<Path>, path: Path): (r: seq<Path>)
    ensures forall p :: p in r <==> p in paths && p != path
    ensures |r| <= |paths| && (path in paths ==> |r| < |paths|)
  {
    if paths == [] then [] else (if paths[0] == path then [] else [paths[0]]) + Without(paths[1..], path)
  }

  function Dropped(repo: Repo, path: Path): Repo {
    repo.(trees := repo.trees - {path}, registered := Without(repo.registered, path))
  }

  /** `git worktree remove` refuses a tree with uncommitted work, `--force` does not. */
  function Remove(repo: Repo, path: Path, force: bool, answer: bool): Ended<()> {
    if answer && path in repo.registered && (force || path !in repo.trees || Held(repo.trees[path]) == {})
    then Ended(Dropped(repo, path), Returned(()))
    else Ended(repo, Threw)
  }

  function Rename(repo: Repo, path: Path): Repo
    requires path in repo.trees
  {
    repo.(trees := repo.trees - {path}, quarantine := [Held(repo.trees[path])] + repo.quarantine)
  }

  // --------------------------------------------------------------- operations

  /** stashIfDirty */
  function StashIfDirty(repo: Repo, path: Path, status: bool, identity: bool, push: bool): Ended<bool> {
    if !HasAnyChanges(repo, path, status) then Ended(repo, Returned(false))
    else if !identity || !push || path !in repo.trees then Ended(repo, Threw)
    else Ended(StashPush(repo, path), Returned(true))
  }

  /** popStashSafely */
  function PopStashSafely(repo: Repo, path: Path, stashed: bool, pop: PopAnswer): Ended<()> {
    if !stashed then Ended(repo, Returned(()))
    else if path !in repo.trees then Ended(repo, Threw)
    else StashPop(repo, path, pop)
  }

  predicate Exists(repo: Repo, path: Path, listed: bool) {
    listed && path in repo.registered
  }

  /** The fast forward, when origin has the branch. */
  function Forwarded(repo: Repo, path: Path, branch: string, verified: bool, merge: bool): Ended<()> {
    if !verified || branch !in repo.origin then Ended(repo, Returned(()))
    else if path !in repo.trees then Ended(repo, Threw)
    else MergeFastForward(repo, path, repo.origin[branch], merge)
  }

  /** syncWorktree */
  function Sync(repo: Repo, path: Path, branch: string, a: SyncAnswers): Ended<()> {
    if !Exists(repo, path, a.listed) || a.fetched.None? then Ended(repo, Threw)
    else
      var s := StashIfDirty(repo.(origin := a.fetched.value), path, a.status, a.identity, a.push);
      if s.result.Threw? then Ended(s.repo, Threw)
      else
        var f := Forwarded(s.repo, path, branch, a.verified, a.merge);
        var p := PopStashSafely(f.repo, path, s.result.value, a.pop);
        if f.result.Threw? || p.result.Threw? || !a.setUrl then Ended(p.repo, Threw)
        else Ended(p.repo, Returned(()))
  }

  /** recoverBlockedWorktreeRemoval, after the error of the forced removal */
  function Recover(repo: Repo, path: Path, a: RemovalAnswers): Ended<bool> {
    if !a.permission then Ended(repo, Returned(false))
    else if !a.mkdir || !a.rename || path !in repo.trees then Ended(repo, Threw)
    else if !a.prune then Ended(Rename(repo, path), Threw)
    else Ended(Prune(Rename(repo, path)), Returned(true))
  }

  datatype Removal = Removal(stashed: bool, forced: bool)

  /** performSafeRemoval */
  function SafeRemoval(repo: Repo, path: Path, a: RemovalAnswers): Ended<Removal> {
    var s := StashIfDirty(repo, path, a.status, a.identity, a.push);
    if s.result.Threw? then Ended(s.repo, Threw)
    else
      var plain := Remove(s.repo, path, false, a.remove);
      if plain.result.Returned? then Ended(plain.repo, Returned(Removal(s.result.value, false)))
      else
        var forced := Remove(s.repo, path, true, a.force);
        if forced.result.Returned? then Ended(forced.repo, Returned(Removal(s.result.value, true)))
        else
          var r := Recover(s.repo, path, a);
          if r.result == Returned(true) then Ended(r.repo, Returned(Removal(s.result.value, true)))
          else Ended(r.repo, Threw)
  }

  /** removeWorktree */
  function RemoveWorktree(repo: Repo, path: Path, listed: bool, a: RemovalAnswers): Ended<()> {
    if !Exists(repo, path, listed) then Ended(repo, Returned(()))
    else
      var r := SafeRemoval(repo, path, a);
      Ended(r.repo, if r.result.Threw? then Threw else Returned(()))
  }

  // ------------------------------------------------------------- work is kept

  lemma StashPushKeepsWork(repo: Repo, path: Path)
    requires path in repo.trees
    ensures AllWork(StashPush(repo, path)) == AllWork(repo)
  {
    var after := StashPush(repo, path);
    var dirty := repo.trees[path].dirty;
    if dirty != {} {
      assert after.stash[0] == dirty && after.stash[1..] == repo.stash;
      assert forall i | 0 <= i < |repo.stash| :: after.stash[i + 1] == repo.stash[i];
      assert forall p <- repo.trees :: p in after.trees && Held(after.trees[p]) <= Held(repo.trees[p]);
      assert dirty <= Held(repo.trees[path]);
      forall e
        ensures e in AllWork(after) <==> e in AllWork(repo)
      {
        if e in AllWork(repo) {
          StaysStashed(repo, after, path, e);
        }
      }
    }
  }

  lemma StaysStashed(repo: Repo, after: Repo, path: Path, e: Edit)
    requires path in repo.trees && repo.trees[path].dirty != {} && after == StashPush(repo, path)
    requires e in AllWork(repo)
    ensures e in AllWork(after)
  {
    if p :| p in repo.trees && e in Held(repo.trees[p]) {
      if p == path && e in repo.trees[p].dirty {
        assert e in after.stash[0];
      } else {
        assert p in after.trees && e in Held(after.trees[p]);
      }
    } else if i :| 0 <= i < |repo.stash| && e in repo.stash[i] {
      assert e in after.stash[i + 1];
    }
  }

  lemma StashPopKeepsWork(repo: Repo, path: Path, pop: PopAnswer)
    requires path in repo.trees
    ensures AllWork(StashPop(repo, path, pop).repo) == AllWork(repo)
  {
    var after := StashPop(repo, path, pop).repo;
    if repo.stash != [] {
      var top := repo.stash[0];
      assert forall p <- repo.trees :: p in after.trees && Held(repo.trees[p]) <= Held(after.trees[p]) <= Held(repo.trees[p]) + top;
      assert pop.Pops? ==> top <= Held(after.trees[path]) && forall i | 1 <= i < |repo.stash| :: after.stash[i - 1] == repo.stash[i];
      forall e
        ensures e in AllWork(after) <==> e in AllWork(repo)
      {
        if e in AllWork(repo) {
          StaysPopped(repo, after, path, pop, e);
        }
      }
    }
  }

  lemma StaysPopped(repo: Repo, after: Repo, path: Path, pop: PopAnswer, e: Edit)
    requires path in repo.trees && after == StashPop(repo, path, pop).repo
    requires e in AllWork(repo)
    ensures e in AllWork(after)
  {
    if p :| p in repo.trees && e in Held(repo.trees[p]) {
      assert p in after.trees && e in Held(after.trees[p]);
    } else if i :| 0 <= i < |repo.stash| && e in repo.stash[i] {
      if pop.Pops? {
        if i == 0 {
          assert e in Held(after.trees[path]);
        } else {
          assert e in after.stash[i - 1];
        }
      } else {
        assert e in after.stash[i];
      }
    }
  }

  lemma ForwardKeepsWork(repo: Repo, path: Path, branch: string, verified: bool, merge: bool)
    ensures var f := Forwarded(repo, path, branch, verified, merge);
      && AllWork(f.repo) == AllWork(repo) && f.repo.stash == repo.stash && f.repo.trees.Keys == repo.trees.Keys
      && (forall p <- repo.trees :: f.repo.trees[p].dirty == repo.trees[p].dirty && f.repo.trees[p].pinned == repo.trees[p].pinned)
      && (forall p <- repo.trees :: Ancestor(repo.trees[p].head, f.repo.trees[p].head))
      && (forall p <- repo.trees :: p != path ==> f.repo.trees[p] == repo.trees[p])
      && f.repo.registered == repo.registered && f.repo.quarantine == repo.quarantine
  {
    hide AllWork;
    var after := Forwarded(repo, path, branch, verified, merge).repo;
    assert forall p <- repo.trees :: p in after.trees && Held(after.trees[p]) == Held(repo.trees[p]);
    SamePlacesSameWork(repo, after);
  }

  lemma SamePlacesSameWork(repo: Repo, after: Repo)
    requires repo.trees.Keys == after.trees.Keys && repo.stash == after.stash && repo.quarantine == after.quarantine
    requires forall p <- repo.trees :: Held(after.trees[p]) == Held(repo.trees[p])
    ensures AllWork(repo) == AllWork(after)
  {
    assert forall p, e :: p in repo.trees && e in Held(repo.trees[p]) <==> p in after.trees && e in Held(after.trees[p]);
  }

  /** At every exit of a sync, normal or thrown, all uncommitted work is still there. */
  lemma SyncKeepsWork(repo: Repo, path: Path, branch: string, a: SyncAnswers)
    ensures AllWork(Sync(repo, path, branch, a).repo) == AllWork(repo)
  {
    hide AllWork, StashPush, StashPop, Forwarded;
    if Exists(repo, path, a.listed) && a.fetched.Some? {
      var fetched := repo.(origin := a.fetched.value);
      FetchKeepsWork(repo, a.fetched.value);
      var s := StashIfDirty(fetched, path, a.status, a.identity, a.push);
      if path in repo.trees {
        StashPushKeepsWork(fetched, path);
      }
      if s.result.Returned? {
        var f := Forwarded(s.repo, path, branch, a.verified, a.merge);
        ForwardKeepsWork(s.repo, path, branch, a.verified, a.merge);
        if path in f.repo.trees {
          StashPopKeepsWork(f.repo, path, a.pop);
        }
      }
    }
  }

  lemma FetchKeepsWork(repo: Repo, refs: map<string, Commit>)
    ensures AllWork(repo.(origin := refs)) == AllWork(repo)
  {
  }

  /** The same trees, each with its old head in its history, and only `path` changed. */
  ghost predicate MovedForward(before: Repo, after: Repo, path: Path) {
    && after.trees.Keys == before.trees.Keys
    && (forall p <- before.trees :: Ancestor(before.trees[p].head, after.trees[p].head))
    && (forall p <- before.trees :: p != path ==> after.trees[p] == before.trees[p])
  }

  lemma StashingKeepsHeads(repo: Repo, path: Path, status: bool, identity: bool, push: bool)
    ensures MovedForward(repo, StashIfDirty(repo, path, status, identity, push).repo, path)
  {
  }

  lemma PoppingKeepsHeads(repo: Repo, path: Path, stashed: bool, pop: PopAnswer)
    ensures MovedForward(repo, PopStashSafely(repo, path, stashed, pop).repo, path)
  {
  }

  lemma MergingMovesForward(repo: Repo, path: Path, branch: string, verified: bool, merge: bool)
    ensures MovedForward(repo, Forwarded(repo, path, branch, verified, merge).repo, path)
  {
    hide AllWork;
    ForwardKeepsWork(repo, path, branch, verified, merge);
  }

  lemma MovedOn(first: Repo, second: Repo, third: Repo, path: Path)
    requires MovedForward(first, second, path) && MovedForward(second, third, path)
    ensures MovedForward(first, third, path)
  {
    hide Ancestor;
    forall p <- first.trees
      ensures Ancestor(first.trees[p].head, third.trees[p].head)
    {
      AncestorTransitive(first.trees[p].head, second.trees[p].head, third.trees[p].head);
    }
  }

  /** Every branch only moves forward, whatever the answers. */
  lemma SyncMovesForward(repo: Repo, path: Path, branch: string, a: SyncAnswers)
    ensures MovedForward(repo, Sync(repo, path, branch, a).repo, path)
  {
    hide MovedForward, StashIfDirty, PopStashSafely, Forwarded;
    NothingMoved(repo, path, repo.origin);
    if Exists(repo, path, a.listed) && a.fetched.Some? {
      NothingMoved(repo, path, a.fetched.value);
      var fetched := repo.(origin := a.fetched.value);
      var s := StashIfDirty(fetched, path, a.status, a.identity, a.push);
      StashingKeepsHeads(fetched, path, a.status, a.identity, a.push);
      MovedOn(repo, fetched, s.repo, path);
      if s.result.Returned? {
        var f := Forwarded(s.repo, path, branch, a.verified, a.merge);
        MergingMovesForward(s.repo, path, branch, a.verified, a.merge);
        MovedOn(repo, s.repo, f.repo, path);
        PoppingKeepsHeads(f.repo, path, s.result.value, a.pop);
        MovedOn(repo, f.repo, PopStashSafely(f.repo, path, s.result.value, a.pop).repo, path);
      }
    }
  }

  lemma NothingMoved(repo: Repo, path: Path, refs: map<string, Commit>)
    ensures MovedForward(repo, repo.(origin := refs), path)
  {
  }

  /** A successful sync has fast-forwarded: origin's branch is in the tree's history. */
  lemma SyncCatchesUp(repo: Repo, path: Path, branch: string, a: SyncAnswers)
    requires Sync(repo, path, branch, a).result.Returned? && path in repo.trees
    requires a.verified && branch in a.fetched.value
    ensures Ancestor(a.fetched.value[branch], Sync(repo, path, branch, a).repo.trees[path].head)
  {
  }

  predicate IsClean(repo: Repo, path: Path, status: bool) {
    status && path in repo.trees && Held(repo.trees[path]) == {}
  }

  predicate Comparable(a: Commit, b: Commit) {
    Ancestor(a, b) || Ancestor(b, a)
  }

  /** Which syncs return: the tree is listed, fetching works, and a tree that is not clean can
      be stashed; origin does not have the branch, or its head and the tree's are comparable;
      the stash goes back, of which there must be some; the address can be set. */
  lemma SyncReturnsExactly(repo: Repo, path: Path, branch: string, a: SyncAnswers)
    ensures Sync(repo, path, branch, a).result.Returned? <==>
      && a.listed && path in repo.registered && a.fetched.Some? && a.setUrl && path in repo.trees
      && (a.verified && branch in a.fetched.value ==> a.merge && Comparable(repo.trees[path].head, a.fetched.value[branch]))
      && (IsClean(repo, path, a.status)
          || (a.identity && a.push && a.pop.Pops? && (repo.trees[path].dirty != {} || repo.stash != [])))
  {
    hide AllWork, Ancestor;
  }

  /** What a sync does to heads: the later of the two when it fast-forwards, nothing else, and
      it fast-forwards whenever it gets that far. */
  lemma SyncTakesTheLaterHead(repo: Repo, path: Path, branch: string, a: SyncAnswers)
    requires path in repo.trees
    ensures var r := Sync(repo, path, branch, a); var head := repo.trees[path].head;
      && (r.result.Returned? && a.verified && branch in a.fetched.value ==>
            r.repo.trees[path].head == if Ancestor(a.fetched.value[branch], head) then head else a.fetched.value[branch])
      && (r.result.Returned? && !(a.verified && branch in a.fetched.value) ==> r.repo.trees[path].head == head)
      && (r.repo.trees[path].head != head ==>
            a.fetched.Some? && branch in a.fetched.value && r.repo.trees[path].head == a.fetched.value[branch])
      && (r.result.Returned? ==> r.repo.origin == a.fetched.value)
      && r.repo.registered == repo.registered && r.repo.quarantine == repo.quarantine
  {
    hide AllWork, Ancestor, StashIfDirty, PopStashSafely, Forwarded;
    if Exists(repo, path, a.listed) && a.fetched.Some? {
      var fetched := repo.(origin := a.fetched.value);
      var s := StashIfDirty(fetched, path, a.status, a.identity, a.push);
      StashingKeepsRefs(fetched, path, a.status, a.identity, a.push);
      if s.result.Returned? {
        ForwardingMovesOneHead(s.repo, path, branch, a.verified, a.merge);
        PoppingKeepsRefs(Forwarded(s.repo, path, branch, a.verified, a.merge).repo, path, s.result.value, a.pop);
      }
    }
  }

  lemma ForwardingMovesOneHead(repo: Repo, path: Path, branch: string, verified: bool, merge: bool)
    requires path in repo.trees
    ensures var f := Forwarded(repo, path, branch, verified, merge); var head := repo.trees[path].head;
      && path in f.repo.trees
      && f.repo.trees[path].head == (if f.result.Returned? && verified && branch in repo.origin && !Ancestor(repo.origin[branch], head)
                                     then repo.origin[branch] else head)
      && f.repo.origin == repo.origin && f.repo.registered == repo.registered && f.repo.quarantine == repo.quarantine
  {
    hide AllWork, Ancestor;
  }

  /** Same trees with the same heads, and the same refs, registrations and quarantine. */
  predicate SameRefs(before: Repo, after: Repo) {
    && after.trees.Keys == before.trees.Keys && (forall p <- before.trees :: after.trees[p].head == before.trees[p].head)
    && after.origin == before.origin && after.registered == before.registered && after.quarantine == before.quarantine
  }

  lemma StashingKeepsRefs(repo: Repo, path: Path, status: bool, identity: bool, push: bool)
    ensures SameRefs(repo, StashIfDirty(repo, path, status, identity, push).repo)
  {
  }

  lemma PoppingKeepsRefs(repo: Repo, path: Path, stashed: bool, pop: PopAnswer)
    ensures SameRefs(repo, PopStashSafely(repo, path, stashed, pop).repo)
  {
  }

  /** The tree is reported dirty, nothing of it can be saved, and the stash holds other work. */
  predicate PopsForeignWork(repo: Repo, path: Path, a: SyncAnswers) {
    HasAnyChanges(repo, path, a.status) && path in repo.trees && repo.trees[path].dirty == {} && repo.stash != []
  }

  /** A successful sync gives the tree its work back and leaves the stash as it was
      exactly when it did not pop an entry another tree had pushed. */
  lemma SyncRestoresTheStash(repo: Repo, path: Path, branch: string, a: SyncAnswers)
    requires Sync(repo, path, branch, a).result.Returned? && path in repo.trees
    ensures var after := Sync(repo, path, branch, a).repo;
      && (after.stash == repo.stash <==> !PopsForeignWork(repo, path, a))
      && (after.stash == repo.stash ==> after.trees[path].dirty == repo.trees[path].dirty)
      && (after.stash != repo.stash ==> after.stash == repo.stash[1..] && after.trees[path].dirty == repo.stash[0])
      && after.trees[path].pinned == repo.trees[path].pinned
  {
    hide AllWork;
    var dirty := repo.trees[path].dirty;
    assert ([dirty] + repo.stash)[1..] == repo.stash;
    assert {} + dirty == dirty;
    if PopsForeignWork(repo, path, a) {
      assert |repo.stash[1..]| != |repo.stash|;
      assert dirty + repo.stash[0] == repo.stash[0];
    }
  }

  /** With an empty stash a tree that is reported dirty, but of which nothing can be saved,
      cannot be synced: the pop has nothing to pop. */
  lemma NothingSavedFailsTheSync(repo: Repo, path: Path, branch: string, a: SyncAnswers)
    requires HasAnyChanges(repo, path, a.status)
    requires path in repo.trees && repo.trees[path].dirty == {} && repo.stash == []
    ensures Sync(repo, path, branch, a).result.Threw?
  {
    hide AllWork, Ancestor;
  }

  /** Runs that move another tree's stashed work into this one: `git status` fails on a clean
      tree, or a submodule has changed. */
  lemma ForeignWorkIsPopped(mine: Path, head: Commit, foreign: Work, submodule: Work, status: bool)
    requires !status || submodule != {}
    ensures var repo := Repo(map[mine := Tree(head, {}, submodule)], [mine], [foreign], [], map[]);
      var a := SyncAnswers(true, Some(map[]), status, true, true, true, true, Pops, true);
      var r := Sync(repo, mine, "issue-1", a);
      r.result.Returned? && r.repo.stash == [] && r.repo.trees[mine].dirty == foreign
  {
    var one: seq<Work> := [foreign];
    assert one[1..] == [];
    assert {} + foreign == foreign && {} + submodule == submodule;
  }

  /** After any exit the tree's own work is in the tree again or is the top stash entry; what
      cannot be stashed never leaves the tree. */
  lemma OwnWorkIsAtHand(repo: Repo, path: Path, branch: string, a: SyncAnswers)
    requires path in repo.trees
    ensures var after := Sync(repo, path, branch, a).repo; var dirty := repo.trees[path].dirty;
      && path in after.trees && after.trees[path].pinned == repo.trees[path].pinned
      && (dirty <= after.trees[path].dirty || (after.stash != [] && after.stash[0] == dirty))
  {
    hide AllWork, Ancestor, Forwarded, PopStashSafely;
    if Exists(repo, path, a.listed) && a.fetched.Some? {
      var s := StashIfDirty(repo.(origin := a.fetched.value), path, a.status, a.identity, a.push);
      ForwardKeepsWork(s.repo, path, branch, a.verified, a.merge);
      if s.result.Returned? {
        PopGivesBack(Forwarded(s.repo, path, branch, a.verified, a.merge).repo, path, s.result.value, a.pop);
      }
    }
  }

  lemma PopGivesBack(repo: Repo, path: Path, stashed: bool, pop: PopAnswer)
    requires path in repo.trees
    ensures var p := PopStashSafely(repo, path, stashed, pop);
      && path in p.repo.trees && p.repo.trees[path].pinned == repo.trees[path].pinned
      && repo.trees[path].dirty <= p.repo.trees[path].dirty
      && (p.repo.stash == repo.stash || (repo.stash != [] && repo.stash[0] <= p.repo.trees[path].dirty))
  {
  }

  lemma DroppingAnEmptyTreeKeepsWork(repo: Repo, path: Path)
    requires path in repo.trees ==> Held(repo.trees[path]) == {}
    ensures AllWork(Dropped(repo, path)) == AllWork(repo)
  {
    var after := Dropped(repo, path);
    assert forall p <- repo.trees :: p != path ==> p in after.trees && after.trees[p] == repo.trees[p];
    forall e
      ensures e in AllWork(after) <==> e in AllWork(repo)
    {
      if p :| p in repo.trees && e in Held(repo.trees[p]) {
        assert p in after.trees && e in Held(after.trees[p]);
      }
    }
  }

  lemma RenameKeepsWork(repo: Repo, path: Path)
    requires path in repo.trees
    ensures AllWork(Rename(repo, path)) == AllWork(repo)
  {
    var after := Rename(repo, path);
    assert after.quarantine[0] == Held(repo.trees[path]);
    assert forall i | 0 <= i < |repo.quarantine| :: after.quarantine[i + 1] == repo.quarantine[i];
    forall e
      ensures e in AllWork(after) <==> e in AllWork(repo)
    {
      if e in AllWork(repo) {
        StaysQuarantined(repo, path, e);
      }
    }
  }

  lemma StaysQuarantined(repo: Repo, path: Path, e: Edit)
    requires path in repo.trees && e in AllWork(repo)
    ensures e in AllWork(Rename(repo, path))
  {
    var after := Rename(repo, path);
    if p :| p in repo.trees && e in Held(repo.trees[p]) {
      if p == path {
        assert e in after.quarantine[0];
      } else {
        assert p in after.trees && e in Held(after.trees[p]);
      }
    } else if i :| 0 <= i < |repo.stash| && e in repo.stash[i] {
      assert e in after.stash[i];
    } else {
      var i :| 0 <= i < |repo.quarantine| && e in repo.quarantine[i];
      assert e in after.quarantine[i + 1];
    }
  }

  lemma PruneKeepsWork(repo: Repo)
    ensures AllWork(Prune(repo)) == AllWork(repo)
  {
  }

  /** The repository without the work of this tree that cannot be stashed. */
  function Unpinned(repo: Repo, path: Path): Repo {
    if path in repo.trees then repo.(trees := repo.trees[path := repo.trees[path].(pinned := {})]) else repo
  }

  /** The tree holds work that cannot be stashed and is nowhere else, and everything up to
      the forced removal goes through; the plain one always refuses such a tree. */
  predicate LosesPinned(repo: Repo, path: Path, a: RemovalAnswers) {
    && path in repo.trees && !(repo.trees[path].pinned <= AllWork(Unpinned(repo, path)))
    && path in repo.registered && a.identity && a.push && a.force
  }

  lemma UnpinnedWork(repo: Repo, path: Path)
    requires path in repo.trees
    ensures AllWork(repo) == AllWork(Unpinned(repo, path)) + repo.trees[path].pinned
  {
    var un := Unpinned(repo, path);
    forall e
      ensures e in AllWork(repo) <==> e in AllWork(un) + repo.trees[path].pinned
    {
      if p :| p in repo.trees && e in Held(repo.trees[p]) {
        assert p in un.trees && (e in Held(un.trees[p]) || (p == path && e in repo.trees[path].pinned));
      }
      if p :| p in un.trees && e in Held(un.trees[p]) {
        assert p in repo.trees && e in Held(repo.trees[p]);
      }
      if e in repo.trees[path].pinned {
        assert e in Held(repo.trees[path]);
      }
    }
  }

  /** Stashing and then deleting the directory loses just what could not be stashed. */
  lemma StashAndDrop(repo: Repo, path: Path)
    requires path in repo.trees
    ensures AllWork(Dropped(StashPush(repo, path), path)) == AllWork(Unpinned(repo, path))
  {
    hide AllWork, Without;
    var un := Unpinned(repo, path);
    var stashed := StashPush(un, path);
    StashPushKeepsWork(un, path);
    DroppingAnEmptyTreeKeepsWork(stashed, path);
    assert Dropped(stashed, path) == Dropped(StashPush(repo, path), path) by {
      assert stashed.trees - {path} == StashPush(repo, path).trees - {path};
    }
  }

  /** A removal loses uncommitted work exactly when it forces away a tree with work that
      could not be stashed, and then just that work; it loses nothing on any throw. */
  lemma RemovalKeepsWork(repo: Repo, path: Path, a: RemovalAnswers)
    ensures var r := SafeRemoval(repo, path, a);
      && (AllWork(r.repo) == AllWork(repo) <==> !LosesPinned(repo, path, a))
      && (LosesPinned(repo, path, a) ==> r.result.Returned? && AllWork(r.repo) == AllWork(Unpinned(repo, path)))
      && AllWork(r.repo) <= AllWork(repo)
  {
    hide AllWork, OnDisk, Without, Dropped, Unpinned;
    var s := StashIfDirty(repo, path, a.status, a.identity, a.push);
    if path in repo.trees {
      StashPushKeepsWork(repo, path);
      UnpinnedWork(repo, path);
      if s.result.Returned? {
        assert s.repo == StashPush(repo, path) && path in s.repo.trees;
        RenameKeepsWork(s.repo, path);
        PruneKeepsWork(Rename(s.repo, path));
        StashAndDrop(repo, path);
        if repo.trees[path].pinned == {} {
          DroppingAnEmptyTreeKeepsWork(s.repo, path);
        }
      }
    }
    if path !in s.repo.trees {
      DroppingAnEmptyTreeKeepsWork(s.repo, path);
    }
  }

  /** A removal that deletes a changed submodule: stashing saves nothing of it, and force
      does not ask. */
  lemma ForcedRemovalDeletesASubmodule(path: Path, head: Commit, e: Edit)
    ensures var repo := Repo(map[path := Tree(head, {}, {e})], [path], [], [], map[]);
      var a := RemovalAnswers(true, true, true, true, true, false, true, true, true);
      var r := SafeRemoval(repo, path, a);
      r.result == Returned(Removal(true, true)) && e in AllWork(repo) && e !in AllWork(r.repo)
  {
    var repo := Repo(map[path := Tree(head, {}, {e})], [path], [], [], map[]);
    assert e in Held(repo.trees[path]);
  }

  /** What a removal does to the trees: on success only the one tree is gone, and its
      work is on the stash; on a throw every tree is still there, unless it was moved to
      quarantine and pruning failed. */
  lemma RemovalTakesOneTree(repo: Repo, path: Path, a: RemovalAnswers)
    ensures var r := SafeRemoval(repo, path, a);
      && (r.result.Returned? ==> path !in r.repo.trees && path !in r.repo.registered && r.repo.trees.Keys == repo.trees.Keys - {path})
      && (r.result.Returned? && path in repo.trees && repo.trees[path].dirty != {} ==>
            r.result.value.stashed && r.repo.stash == [repo.trees[path].dirty] + repo.stash)
      && (forall p <- repo.trees :: p != path ==> p in r.repo.trees && r.repo.trees[p] == repo.trees[p])
      && (r.result.Threw? ==> r.repo.registered == repo.registered)
      && (r.result.Threw? && path !in r.repo.trees && path in repo.trees ==> a.permission && a.mkdir && a.rename && !a.prune)
  {
    hide AllWork, StashIfDirty, HasAnyChanges, StashPush, OnDisk, Without;
    StashingBeforeRemoval(repo, path, a);
  }

  lemma StashingBeforeRemoval(repo: Repo, path: Path, a: RemovalAnswers)
    ensures var s := StashIfDirty(repo, path, a.status, a.identity, a.push);
      && s.repo.trees.Keys == repo.trees.Keys && s.repo.registered == repo.registered
      && (forall p <- repo.trees :: p != path ==> s.repo.trees[p] == repo.trees[p])
      && (s.result.Returned? && path in repo.trees && repo.trees[path].dirty != {} ==>
            s.result.value && s.repo.stash == [repo.trees[path].dirty] + repo.stash)
  {
  }

  /** The plain removal goes through: after stashing nothing is left in the tree. */
  predicate PlainRemovalWorks(repo: Repo, path: Path, a: RemovalAnswers) {
    path in repo.registered && a.remove && path in repo.trees && repo.trees[path].pinned == {}
  }

  /** The tree is clean or can be stashed, and then the plain removal goes through, or the
      forced one, or the quarantine. */
  predicate RemovalWorks(repo: Repo, path: Path, a: RemovalAnswers) {
    && path in repo.trees && (IsClean(repo, path, a.status) || (a.identity && a.push))
    && (PlainRemovalWorks(repo, path, a) || (path in repo.registered && a.force) || (a.permission && a.mkdir && a.rename && a.prune))
  }

  /** Which removals return, and what they report; the forced removal and the quarantine are
      both reported as forced, and the quarantine keeps what was not stashed. */
  lemma RemovalReturnsExactly(repo: Repo, path: Path, a: RemovalAnswers)
    ensures var r := SafeRemoval(repo, path, a); var plain := PlainRemovalWorks(repo, path, a);
      && (r.result.Returned? <==> RemovalWorks(repo, path, a))
      && (r.result.Returned? ==> r.result.value == Removal(!IsClean(repo, path, a.status), !plain))
      && (r.result.Returned? && !plain && !(path in repo.registered && a.force) ==>
            |r.repo.quarantine| == |repo.quarantine| + 1 && r.repo.quarantine[0] == repo.trees[path].pinned)
  {
    hide AllWork, OnDisk, Without;
  }

  /** Removing by issue returns exactly when there is nothing to remove or the removal works;
      then the listing has forgotten the tree, and the directory is gone. */
  lemma RemoveWorktreeReturnsExactly(repo: Repo, path: Path, listed: bool, a: RemovalAnswers)
    ensures var r := RemoveWorktree(repo, path, listed, a); var there := listed && path in repo.registered;
      && (r.result.Returned? <==> !there || RemovalWorks(repo, path, a))
      && (!there ==> r.repo == repo)
      && (there && r.result.Returned? ==> path !in r.repo.registered && path !in r.repo.trees)
  {
    hide SafeRemoval, RemovalWorks;
    RemovalReturnsExactly(repo, path, a);
    RemovalTakesOneTree(repo, path, a);
  }

  lemma RemoveWorktreeKeepsWork(repo: Repo, path: Path, listed: bool, a: RemovalAnswers)
    ensures AllWork(RemoveWorktree(repo, path, listed, a).repo) == AllWork(repo)
      <==> !(Exists(repo, path, listed) && LosesPinned(repo, path, a))
  {
    hide AllWork, SafeRemoval, LosesPinned;
    RemovalKeepsWork(repo, path, a);
  }

  // -------------------------------------------------------------- the manager

  /** The fields git's commands change; each method runs the commands in the
      source's order. The answers stand for how each command ends. */
  class WorktreeManager {
    var trees: map<Path, Tree>
    var registered: seq<Path>
    var stash: seq<Work>
    var quarantine: seq<Work>
    var origin: map<string, Commit>

    constructor (repo: Repo)
      ensures Snapshot() == repo
    {
      trees, registered, stash := repo.trees, repo.registered, repo.stash;
      quarantine, origin := repo.quarantine, repo.origin;
    }

    function Snapshot(): Repo
      reads this
    {
      Repo(trees, registered, stash, quarantine, origin)
    }

    method RunStashPush(path: Path)
      requires path in trees
      modifies this`trees, this`stash
      ensures Snapshot() == StashPush(old(Snapshot()), path)
    {
      var tree := trees[path];
      if tree.dirty != {} {
        stash := [tree.dirty] + stash;
        trees := trees[path := tree.(dirty := {})];
      }
    }

    method RunStashPop(path: Path, pop: PopAnswer) returns (ok: bool)
      requires path in trees
      modifies this`trees, this`stash
      ensures Snapshot() == StashPop(old(Snapshot()), path, pop).repo
      ensures ok == StashPop(old(Snapshot()), path, pop).result.Returned?
    {
      if stash == [] {
        return false;
      }
      var tree := trees[path];
      match pop {
        case Pops =>
          trees := trees[path := tree.(dirty := tree.dirty + stash[0])];
          stash := stash[1..];
          return true;
        case Conflicts(applied) =>
          trees := trees[path := tree.(dirty := tree.dirty + applied * stash[0])];
          return false;
      }
    }

    method StashTreeIfDirty(path: Path, status: bool, identity: bool, push: bool) returns (stashed: Outcome<bool>)
      modifies this`trees, this`stash
      ensures StashIfDirty(old(Snapshot()), path, status, identity, push) == Ended(Snapshot(), stashed)
    {
      if !HasAnyChanges(Snapshot(), path, status) {
        return Returned(false);
      }
      if !identity || !push || path !in trees {
        return Threw;
      }
      RunStashPush(path);
      return Returned(true);
    }

    method PopSafely(path: Path, stashed: bool, pop: PopAnswer) returns (ok: bool)
      modifies this`trees, this`stash
      ensures PopStashSafely(old(Snapshot()), path, stashed, pop) == Ended(Snapshot(), if ok then Returned(()) else Threw)
    {
      if !stashed {
        return true;
      }
      if path !in trees {
        return false;
      }
      ok := RunStashPop(path, pop);
    }

    /** `git merge --ff-only`, when `git rev-parse` finds the remote branch. */
    method FastForward(path: Path, branch: string, verified: bool, merge: bool) returns (ok: bool)
      modifies this`trees
      ensures Forwarded(old(Snapshot()), path, branch, verified, merge) == Ended(Snapshot(), if ok then Returned(()) else Threw)
    {
      if !verified || branch !in origin {
        return true;
      }
      if path !in trees || !merge {
        return false;
      }
      var target := origin[branch];
      if Ancestor(target, trees[path].head) {
        return true;
      }
      if Ancestor(trees[path].head, target) {
        trees := trees[path := trees[path].(head := target)];
        return true;
      }
      return false;
    }

    method SyncWorktree(path: Path, branch: string, a: SyncAnswers) returns (ok: bool)
      modifies this
      ensures Sync(old(Snapshot()), path, branch, a) == Ended(Snapshot(), if ok then Returned(()) else Threw)
    {
      hide StashIfDirty, PopStashSafely, Forwarded;
      if !(a.listed && path in registered) {
        return false;
      }
      if a.fetched.None? {
        return false;
      }
      origin := a.fetched.value;
      ghost var fetched := Snapshot();
      assert fetched == old(Snapshot()).(origin := a.fetched.value);
      var stashed := StashTreeIfDirty(path, a.status, a.identity, a.push);
      ghost var s := Ended(Snapshot(), stashed);
      assert s == StashIfDirty(fetched, path, a.status, a.identity, a.push);
      if stashed.Threw? {
        return false;
      }
      var merged := FastForward(path, branch, a.verified, a.merge);
      ghost var f := Forwarded(s.repo, path, branch, a.verified, a.merge);
      assert f.repo == Snapshot();
      // Both the catch block and the normal path put the stash back.
      var popped := PopSafely(path, stashed.value, a.pop);
      assert PopStashSafely(f.repo, path, stashed.value, a.pop).repo == Snapshot();
      if !merged || !popped {
        return false;
      }
      return a.setUrl;
    }

    method RunRemove(path: Path, force: bool, answer: bool) returns (ok: bool)
      modifies this`trees, this`registered
      ensures Remove(old(Snapshot()), path, force, answer) == Ended(Snapshot(), if ok then Returned(()) else Threw)
    {
      ok := answer && path in registered && (force || path !in trees || Held(trees[path]) == {});
      if ok {
        trees := trees - {path};
        registered := Without(registered, path);
      }
    }

    method PruneWorktrees()
      modifies this`registered
      ensures Snapshot() == Prune(old(Snapshot()))
    {
      registered := OnDisk(registered, trees);
    }

    method RecoverBlockedRemoval(path: Path, a: RemovalAnswers) returns (recovered: Outcome<bool>)
      modifies this`trees, this`registered, this`quarantine
      ensures Recover(old(Snapshot()), path, a) == Ended(Snapshot(), recovered)
    {
      if !a.permission {
        return Returned(false);
      }
      if !a.mkdir || !a.rename || path !in trees {
        return Threw;
      }
      quarantine := [Held(trees[path])] + quarantine;
      trees := trees - {path};
      if !a.prune {
        return Threw;
      }
      PruneWorktrees();
      return Returned(true);
    }

    method PerformSafeRemoval(path: Path, a: RemovalAnswers) returns (removal: Outcome<Removal>)
      modifies this`trees, this`registered, this`stash, this`quarantine
      ensures SafeRemoval(old(Snapshot()), path, a) == Ended(Snapshot(), removal)
    {
      hide StashIfDirty, Remove, Recover, AllWork;
      var stashed := StashTreeIfDirty(path, a.status, a.identity, a.push);
      if stashed.Threw? {
        return Threw;
      }
      var forced := false;
      var removed := RunRemove(path, false, a.remove);
      ghost var afterPlain := Snapshot();
      RefusedRemovalChangesNothing(StashIfDirty(old(Snapshot()), path, a.status, a.identity, a.push).repo, path, false, a.remove);
      if !removed {
        removed := RunRemove(path, true, a.force);
        RefusedRemovalChangesNothing(afterPlain, path, true, a.force);
        if !removed {
          var recovered := RecoverBlockedRemoval(path, a);
          if recovered != Returned(true) {
            return Threw;
          }
        }
        forced := true;
      }
      return Returned(Removal(stashed.value, forced));
    }
  }

  lemma RefusedRemovalChangesNothing(repo: Repo, path: Path, force: bool, answer: bool)
    ensures Remove(repo, path, force, answer).result.Threw? ==> Remove(repo, path, force, answer).repo == repo
  {
  }
}
