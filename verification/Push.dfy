/** Committing and pushing while others push to the same branch
    (src/workspace/manager.ts, commitAndPushPath). */
module Push {
  import opened History
  import opened Sorting
  import opened Text
  import opened Wrappers

  predicate IsHex(c: char) {
    '0' <= c <= '9' || 'a' <= c <= 'f' || 'A' <= c <= 'F'
  }

  /** What the lease must look like: 40 to 64 hexadecimal digits, either case. */
  predicate IsObjectName(s: string) {
    40 <= |s| <= 64 && forall i | 0 <= i < |s| :: IsHex(s[i])
  }

  function LowerHex(s: string): string {
    seq(|s|, i requires 0 <= i < |s| => if 'A' <= s[i] <= 'F' then s[i] - 'A' + 'a' else s[i])
  }

  /** The names of the commits at hand differ, are well formed, and are in lower case. */
  ghost predicate NamesCommits(name: Commit -> string, world: set<Commit>) {
    && (forall c, d | c in world && d in world && name(c) == name(d) :: c == d)
    && (forall c <- world :: IsObjectName(name(c)) && LowerHex(name(c)) == name(c))
  }

  /** How the environment answers. The three remote heads are what the branch points at
      when the plain push, the fetch and the forced push reach GitHub: anyone may have
      pushed in between. `looksRejected` says whether the text of a push that failed for
      another reason happens to match the non-fast-forward pattern. */
  datatype Answers = Answers(
    identity: bool, add: bool, staged: bool, commit: Option<nat>, ahead: bool,
    atPush: Option<Commit>, push: bool, looksRejected: bool,
    atFetch: Option<Commit>, fetch: bool, revParse: bool,
    atForce: Option<Commit>, force: bool)

  /** `replaced` is Some(head) when the call replaced the remote head `head`. */
  datatype PushEnd = PushEnd(local: Commit, tracking: Option<Commit>, replaced: Option<Option<Commit>>, pushed: Outcome<bool>)

  predicate FastForward(remote: Option<Commit>, local: Commit) {
    remote.None? || Ancestor(remote.value, local)
  }

  function Lease(name: Commit -> string, expected: Option<string>, tracking: Option<Commit>, a: Answers): string {
    if expected.Some? then expected.value
    else if !a.revParse || tracking.None? then ""
    else name(tracking.value)
  }

  /** The remote-tracking ref after the fetch in resolveRemoteHeadForLease. */
  function Fetched(expected: Option<string>, tracking: Option<Commit>, a: Answers): Option<Commit> {
    if expected.None? && a.fetch && a.atFetch.Some? then a.atFetch else tracking
  }

  /** `--force-with-lease`: the remote head must be the leased one at that instant. */
  predicate LeaseHolds(name: Commit -> string, lease: string, remote: Option<Commit>) {
    remote.Some? && LowerHex(lease) == name(remote.value)
  }

  function ForcedPush(name: Commit -> string, local: Commit, tracking: Option<Commit>, expected: Option<string>, a: Answers): PushEnd {
    var fetched := Fetched(expected, tracking, a);
    var lease := Lease(name, expected, fetched, a);
    if !IsObjectName(lease) || !a.force || !LeaseHolds(name, lease, a.atForce)
    then PushEnd(local, fetched, None, Threw)
    else PushEnd(local, Some(local), Some(a.atForce), Returned(true))
  }

  function Committed(local: Commit, a: Answers): Commit {
    if a.staged && a.commit.Some? then Commit(a.commit.value, [local]) else local
  }

  /** commitAndPushPath; `local` is the branch head, `tracking` is `origin/<branch>`. */
  function CommitAndPush(name: Commit -> string, local: Commit, tracking: Option<Commit>, expected: Option<string>, a: Answers): PushEnd {
    if !a.identity || !a.add || (a.staged && a.commit.None?) then PushEnd(local, tracking, None, Threw)
    else
      var head := Committed(local, a);
      if !a.staged && !a.ahead then PushEnd(head, tracking, None, Returned(false))
      else if a.push && FastForward(a.atPush, head) then PushEnd(head, Some(head), Some(a.atPush), Returned(true))
      else if !a.push && !a.looksRejected then PushEnd(head, tracking, None, Threw)
      else ForcedPush(name, head, tracking, expected, a)
  }

  /** The branch, its remote-tracking ref, and the branch on GitHub. */
  class PushState {
    var local: Commit
    var tracking: Option<Commit>
    var remote: Option<Commit>
    ghost var replaced: Option<Option<Commit>>

    constructor (local: Commit, tracking: Option<Commit>, remote: Option<Commit>)
      ensures this.local == local && this.tracking == tracking && this.remote == remote && replaced == None
    {
      this.local, this.tracking, this.remote, replaced := local, tracking, remote, None;
    }

    method CommitAndPushPath(name: Commit -> string, expected: Option<string>, a: Answers) returns (pushed: Outcome<bool>)
      requires replaced == None
      modifies this
      ensures CommitAndPush(name, old(local), old(tracking), expected, a) == PushEnd(local, tracking, replaced, pushed)
      ensures pushed == Returned(true) ==> remote == Some(local)
    {
      if !a.identity || !a.add {
        return Threw;
      }
      if a.staged {
        if a.commit.None? {
          return Threw;
        }
        local := Commit(a.commit.value, [local]);
      }
      if !a.staged && !a.ahead {
        return Returned(false);
      }
      remote := a.atPush;
      if a.push && FastForward(remote, local) {
        replaced := Some(remote);
        remote, tracking := Some(local), Some(local);
        return Returned(true);
      }
      if !a.push && !a.looksRejected {
        return Threw;
      }
      var lease := if expected.Some? then expected.value else "";
      if expected.None? {
        remote := a.atFetch;
        if a.fetch && remote.Some? {
          tracking := remote;
        }
        if a.revParse && tracking.Some? {
          lease := name(tracking.value);
        }
      }
      remote := a.atForce;
      if !IsObjectName(lease) || !a.force || !LeaseHolds(name, lease, remote) {
        return Threw;
      }
      replaced := Some(remote);
      remote, tracking := Some(local), Some(local);
      return Returned(true);
    }
  }

  /** The commit was on the branch and the call took it off. */
  predicate Loses(end: PushEnd, c: Commit) {
    end.replaced.Some? && end.replaced.value.Some? && Ancestor(c, end.replaced.value.value) && !Ancestor(c, end.local)
  }

  /** For every answer: a remote head is replaced exactly when the call returns true, and
      only when it is in local history or is the leased head at that instant. */
  lemma ReplacesOnlyWhatItMay(name: Commit -> string, local: Commit, tracking: Option<Commit>, expected: Option<string>, a: Answers)
    ensures var end := CommitAndPush(name, local, tracking, expected, a);
      && (end.replaced.Some? <==> end.pushed == Returned(true))
      && (end.replaced.Some? && end.replaced.value.Some? ==>
            var head := end.replaced.value.value;
            || Ancestor(head, end.local)
            || LowerHex(Lease(name, expected, Fetched(expected, tracking, a), a)) == name(head))
      && Ancestor(local, end.local)
  {
    assert Ancestor(local, local);
    if a.staged && a.commit.Some? {
      assert Committed(local, a).parents[0] == local;
    }
  }

  /** What the call leaves as the local branch: a new commit on top of the old head exactly
      when changes were staged and everything up to the commit went through. */
  lemma CommitsWhatIsStaged(name: Commit -> string, local: Commit, tracking: Option<Commit>, expected: Option<string>, a: Answers)
    ensures var end := CommitAndPush(name, local, tracking, expected, a);
      if a.identity && a.add && a.staged && a.commit.Some?
      then end.local.id == a.commit.value && end.local.parents == [local]
      else end.local == local
  {
  }

  /** A plain push that GitHub accepts: the remote head is in local history. */
  predicate PlainPushWorks(head: Commit, a: Answers) {
    a.push && (a.atPush.None? || Ancestor(a.atPush.value, head))
  }

  /** A plain push that GitHub rejects or that looks as if it had, then a forced push whose
      lease, the expected head or else the one just fetched, is where the branch stands. */
  predicate LeasedPushWorks(name: Commit -> string, tracking: Option<Commit>, expected: Option<string>, a: Answers) {
    && (a.push || a.looksRejected) && a.force && a.atForce.Some?
    && (if expected.Some? then IsObjectName(expected.value) && LowerHex(expected.value) == name(a.atForce.value)
        else
          var head := if a.fetch && a.atFetch.Some? then a.atFetch else tracking;
          a.revParse && head.Some? && IsObjectName(name(head.value)) && LowerHex(name(head.value)) == name(a.atForce.value))
  }

  /** Which calls report a push, which report that there was nothing to do, and what a reported
      push replaced; every other call throws. */
  lemma ReportsAPushExactly(name: Commit -> string, local: Commit, tracking: Option<Commit>, expected: Option<string>, a: Answers)
    ensures var end := CommitAndPush(name, local, tracking, expected, a);
      var ready := a.identity && a.add && (a.staged ==> a.commit.Some?);
      && (end.pushed == Returned(true) <==>
            ready && (a.staged || a.ahead)
            && (PlainPushWorks(end.local, a) || LeasedPushWorks(name, tracking, expected, a)))
      && (end.pushed == Returned(false) <==> ready && !a.staged && !a.ahead)
      && (end.pushed == Returned(true) ==>
            && end.tracking == Some(end.local)
            && end.replaced == Some(if PlainPushWorks(end.local, a) then a.atPush else a.atForce))
  {
    hide Ancestor;
  }

  const LOWER := "0123456789abcdef"
  const UPPER := "0123456789ABCDEF"

  /** The lease must be 40 to 64 hexadecimal digits, and the case of the letters is ignored. */
  lemma ObjectNamesAreHex(s: string)
    ensures IsObjectName(s) <==> 40 <= |s| <= 64 && forall i | 0 <= i < |s| :: s[i] in LOWER || s[i] in UPPER
    ensures forall i, d | 0 <= i < |s| && 0 <= d < 16 && (s[i] == LOWER[d] || s[i] == UPPER[d]) :: LowerHex(s)[i] == LOWER[d]
  {
    HexDigits();
  }

  lemma HexDigits()
    ensures forall c :: IsHex(c) <==> c in LOWER || c in UPPER
    ensures forall d | 0 <= d < 16 :: LowerHex([UPPER[d]]) == [LOWER[d]] && LowerHex([LOWER[d]]) == [LOWER[d]]
  {
  }

  // ------------------------------------------------------------------ naming

  predicate Within(head: Option<Commit>, world: set<Commit>) {
    head.Some? ==> head.value in world
  }

  /** The heads the branch shows during the call are commits at hand. */
  predicate Among(a: Answers, world: set<Commit>) {
    Within(a.atPush, world) && Within(a.atFetch, world) && Within(a.atForce, world)
  }

  /** Forty zeros but for a one at place `i`. */
  function Digits(i: nat): (s: string)
    requires i < 40
    ensures IsObjectName(s) && LowerHex(s) == s
    ensures forall k | 0 <= k < 40 :: s[k] == '1' <==> k == i
  {
    seq(40, k => if k == i then '1' else '0')
  }

  function Place(commits: seq<Commit>, c: Commit): (i: nat)
    ensures i <= |commits| && (i < |commits| ==> commits[i] == c)
    ensures i == |commits| ==> c !in commits
  {
    if commits == [] || commits[0] == c then 0 else 1 + Place(commits[1..], c)
  }

  /** Names a commit after its place in the list. */
  function NameBy(commits: seq<Commit>): Commit -> string {
    (c: Commit) => if Place(commits, c) < 40 then Digits(Place(commits, c)) else ""
  }

  /** Any forty commits can be named, far more than one call ever looks at. */
  lemma CommitsCanBeNamed(world: set<Commit>)
    requires |world| <= 40
    ensures exists name: Commit -> string :: NamesCommits(name, world)
  {
    PlacesName(Enumerated(world), world);
  }

  lemma PlacesName(commits: seq<Commit>, world: set<Commit>)
    requires |commits| <= 40 && forall c <- world :: c in commits
    ensures NamesCommits(NameBy(commits), world)
  {
    hide Place, IsObjectName, LowerHex;
    var name := NameBy(commits);
    forall c, d | c in world && d in world && name(c) == name(d)
      ensures c == d
    {
      var i, j := Place(commits, c), Place(commits, d);
      assert Digits(i)[i] == '1' && Digits(j)[i] == '1';
    }
  }

  // ------------------------------------------------------------ what is lost

  /** A head captured beforehand protects everything that lands later: no commit that was
      not yet in it is ever taken off the branch. */
  lemma ExpectedHeadProtects(
      name: Commit -> string, world: set<Commit>, local: Commit, tracking: Option<Commit>, seen: Commit, foreign: Commit, a: Answers)
    requires NamesCommits(name, world) && seen in world && Among(a, world)
    requires !Ancestor(foreign, seen)
    ensures !Loses(CommitAndPush(name, local, tracking, Some(name(seen)), a), foreign)
  {
    var end := CommitAndPush(name, local, tracking, Some(name(seen)), a);
    ReplacesOnlyWhatItMay(name, local, tracking, Some(name(seen)), a);
    if Loses(end, foreign) {
      var head := end.replaced.value.value;
      if Ancestor(head, end.local) {
        AncestorTransitive(foreign, head, end.local);
      }
    }
  }

  /** Whatever is lost without an expected head was in the remote-tracking ref the call
      leased, and the remote still stood there. */
  lemma LossNeedsALease(name: Commit -> string, world: set<Commit>, local: Commit, tracking: Option<Commit>, a: Answers, c: Commit)
    requires NamesCommits(name, world) && Within(tracking, world) && Among(a, world)
    ensures var end := CommitAndPush(name, local, tracking, None, a); var fetched := Fetched(None, tracking, a);
      Loses(end, c) <==>
        && a.identity && a.add && (a.staged ==> a.commit.Some?) && (a.staged || a.ahead)
        && (if a.push then !FastForward(a.atPush, Committed(local, a)) else a.looksRejected)
        && a.revParse && a.force && fetched.Some? && a.atForce == fetched
        && Ancestor(c, fetched.value) && !Ancestor(c, Committed(local, a))
  {
    hide Ancestor;
    var end := CommitAndPush(name, local, tracking, None, a);
    var fetched := Fetched(None, tracking, a);
    if Loses(end, c) && a.push && FastForward(a.atPush, Committed(local, a)) && a.atPush.Some? {
      AncestorTransitive(c, a.atPush.value, Committed(local, a));
    }
    if fetched.Some? {
      assert IsObjectName(name(fetched.value));
    }
    if fetched.Some? && a.atForce.Some? && name(fetched.value) == name(a.atForce.value) {
      assert fetched == a.atForce;
    }
  }

  /** The run that loses a commit somebody pushed before the fetch. */
  function LosingRun(foreign: Commit): Answers {
    Answers(true, true, false, None, true, Some(foreign), true, false, Some(foreign), true, true, Some(foreign), true)
  }

  /** A foreign commit that is neither in the local branch nor in the head the caller saw
      is safe on every run exactly when the caller passes that head. */
  lemma {:induction false} SafeExactlyWithAnExpectedHead(
      name: Commit -> string, world: set<Commit>, local: Commit, tracking: Option<Commit>, seen: Commit, foreign: Commit, given: bool)
    requires NamesCommits(name, world) && seen in world && foreign in world && Within(tracking, world)
    requires !Ancestor(foreign, seen) && !Ancestor(foreign, local)
    ensures var expected := if given then Some(name(seen)) else None;
      (forall a | Among(a, world) :: !Loses(CommitAndPush(name, local, tracking, expected, a), foreign)) <==> given
  {
    if given {
      forall a | Among(a, world)
        ensures !Loses(CommitAndPush(name, local, tracking, Some(name(seen)), a), foreign)
      {
        ExpectedHeadProtects(name, world, local, tracking, seen, foreign, a);
      }
    } else {
      LossNeedsALease(name, world, local, tracking, LosingRun(foreign), foreign);
      assert Ancestor(foreign, foreign);
      assert Among(LosingRun(foreign), world);
      assert Loses(CommitAndPush(name, local, tracking, None, LosingRun(foreign)), foreign);
    }
  }

  /** The theorem speaks of real histories: two commits side by side, one of them local,
      and names for them. */
  lemma TwoBranchesAreSuchAWorld()
    ensures exists name: Commit -> string, world: set<Commit>, local: Commit, foreign: Commit ::
      && NamesCommits(name, world) && local in world && foreign in world
      && !Ancestor(foreign, local) && !Ancestor(local, foreign)
  {
    hide NamesCommits, NameBy;
    var root := Commit(0, []);
    var local, foreign := Commit(1, [root]), Commit(2, [root]);
    var world := {root, local, foreign};
    PlacesName([root, local, foreign], world);
    assert !Ancestor(foreign, root) && !Ancestor(local, root);
    assert NamesCommits(NameBy([root, local, foreign]), world) && local in world && foreign in world;
  }

  /** An expected head that is no object name never forces; an empty one neither. */
  lemma MalformedExpectationNeverForces(name: Commit -> string, local: Commit, tracking: Option<Commit>, expected: string, a: Answers, c: Commit)
    requires !IsObjectName(expected)
    ensures !Loses(CommitAndPush(name, local, tracking, Some(expected), a), c)
  {
    var end := CommitAndPush(name, local, tracking, Some(expected), a);
    if Loses(end, c) && a.atPush.Some? {
      AncestorTransitive(c, a.atPush.value, end.local);
    }
  }
}
