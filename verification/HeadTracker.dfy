/** The default-branch head tracker: which pushes are reported, and which are
    handled over whole runs (src/github-events/polling.ts). */
module HeadTracker {
  import opened Polling
  import opened PollSchedule
  import opened Sorting
  import opened Text
  import opened Wrappers

  // ---------------------------------------------------------- chains of pushes

  /** What one repository answers over time. */
  datatype Observation = Observation(answer: RepoAnswer, now: int)

  function Track(heads: map<string, string>, observed: seq<Observation>): (map<string, string>, seq<Event>)
    decreases |observed|
  {
    if observed == [] then (heads, [])
    else
      var (next, pushes) := CollectPush(heads, observed[0].answer, observed[0].now);
      var (last, rest) := Track(next, observed[1..]);
      (last, pushes + rest)
  }

  predicate AllOf(repo: string, observed: seq<Observation>) {
    forall i | 0 <= i < |observed| :: observed[i].answer.repo == repo
  }

  /** The heads a repository showed, consecutive repetitions left out. */
  function Changes(head: Option<string>, observed: seq<Observation>): seq<string>
    decreases |observed|
  {
    if observed == [] then []
    else if !Truthy(observed[0].answer.head) || observed[0].answer.head == head then Changes(head, observed[1..])
    else [observed[0].answer.head.value] + Changes(observed[0].answer.head, observed[1..])
  }

  /** Each push goes from one of these heads to the next. */
  predicate Chained(heads: seq<string>, pushes: seq<Event>) {
    && |heads| == |pushes| + 1
    && forall i | 0 <= i < |pushes| :: pushes[i].before == heads[i] && pushes[i].after == heads[i + 1] && heads[i] != heads[i + 1]
  }

  /** From a recorded head on, the pushes reported for a repository are exactly the changes
      of its head, each from the head before: a chain without gaps that ends at the recorded
      head. The first head ever seen is recorded without a push. */
  lemma {:induction false} PushesAreTheChanges(heads: map<string, string>, repo: string, observed: seq<Observation>)
    requires AllOf(repo, observed) && Truthy(HeadOf(heads, repo))
    ensures var (last, pushes) := Track(heads, observed); var head := HeadOf(heads, repo);
      && Chained([head.value] + Changes(head, observed), pushes)
      && Truthy(HeadOf(last, repo)) && HeadOf(last, repo).value == ([head.value] + Changes(head, observed))[|pushes|]
    decreases |observed|
  {
    if observed != [] {
      var (next, first) := CollectPush(heads, observed[0].answer, observed[0].now);
      PushesAreTheChanges(next, repo, observed[1..]);
      var head, after := HeadOf(heads, repo), HeadOf(next, repo);
      var (last, rest) := Track(next, observed[1..]);
      var tail := [after.value] + Changes(after, observed[1..]);
      if first == [] {
        assert [] + rest == rest;
      } else {
        assert [head.value] + Changes(head, observed) == [head.value] + tail;
        assert first + rest == [first[0]] + rest;
      }
    }
  }

  /** A run of heads A, B, A, B whose second move to B is reported and then ignored. */
  lemma BackAndForth(repo: string, ref: string, a: string, b: string)
    requires a != "" && b != "" && a != b
    ensures var look := (head: string) => Observation(RepoAnswer(repo, ref, true, Some(head), None), 0);
      var (last, pushes) := Track(map[], [look(a), look(b), look(a), look(b)]);
      |pushes| == 3 && pushes[0].id == pushes[2].id && pushes[0].after == b
  {
    var look := (head: string) => Observation(RepoAnswer(repo, ref, true, Some(head), None), 0);
    var observed := [look(a), look(b), look(a), look(b)];
    var (seeded, none) := CollectPush(map[], observed[0].answer, 0);
    var tail := [look(b), look(a), look(b)];
    assert observed[1..] == tail;
    PushesAreTheChanges(seeded, repo, tail);
    var two, one := [look(a), look(b)], [look(b)];
    assert tail[1..] == two && two[1..] == one && one[1..] == [];
    assert Changes(Some(a), one) == [b];
    assert Changes(Some(b), two) == [a, b];
    assert Changes(Some(a), tail) == [b, a, b];
    var pushes := Track(seeded, tail).1;
    assert none + pushes == pushes;
    TrackedIds(seeded, repo, ref, tail);
  }

  lemma {:induction false} TrackedIds(heads: map<string, string>, repo: string, ref: string, observed: seq<Observation>)
    requires AllOf(repo, observed) && forall i | 0 <= i < |observed| :: observed[i].answer.ref == ref
    ensures forall p | p in Track(heads, observed).1 :: p.id == PushId(repo, ref, p.after)
    decreases |observed|
  {
    hide PushId;
    if observed != [] {
      TrackedIds(CollectPush(heads, observed[0].answer, observed[0].now).0, repo, ref, observed[1..]);
    }
  }

  // ------------------------------------------------------ what a tick reports

  /** No two polled answers are for one repository. */
  predicate Once(repos: seq<RepoAnswer>) {
    forall i, j | 0 <= i < j < |repos| && repos[i].polled && repos[j].polled :: repos[i].repo != repos[j].repo
  }

  /** Repository names and refs contain no colon. */
  predicate WellNamed(repos: seq<RepoAnswer>) {
    forall i | 0 <= i < |repos| :: ':' !in repos[i].repo && ':' !in repos[i].ref
  }

  /** The default branch of the repository is `ref`. */
  predicate OnBranch(repos: seq<RepoAnswer>, repo: string, ref: string) {
    forall i | 0 <= i < |repos| && repos[i].repo == repo :: repos[i].ref == ref
  }

  predicate FreeOf(events: seq<Event>, id: string) {
    forall i | 0 <= i < |events| :: events[i].id != id
  }

  predicate ListingsFreeOf(repos: seq<RepoAnswer>, id: string) {
    forall i | 0 <= i < |repos| && repos[i].events.Some? :: FreeOf(repos[i].events.value, id)
  }

  predicate Carries(events: seq<Event>, id: string) {
    exists i :: 0 <= i < |events| && events[i].id == id
  }

  /** The head a repository shows, None when it is not polled or GitHub gives none. */
  function ShownIn(repos: seq<RepoAnswer>, repo: string): Option<string> {
    if repos == [] then None
    else if repos[0].polled && repos[0].repo == repo then if Truthy(repos[0].head) then repos[0].head else None
    else ShownIn(repos[1..], repo)
  }

  lemma ColonEnds(a: string, b: string, c: string, d: string)
    requires a + ":" + b == c + ":" + d && ':' !in a && ':' !in c
    ensures a == c && b == d
  {
    hide Split;
    SplitAtSep(a, ':', b);
    SplitAtSep(c, ':', d);
    assert ([a] + Split(b, ':'))[0] == ([c] + Split(d, ':'))[0];
    SameTail(a + ":", b, d);
  }

  /** A push id names its repository, ref and new head. */
  lemma PushIdNames(repo: string, ref: string, after: string, repo': string, ref': string, after': string)
    requires ':' !in repo && ':' !in repo' && ':' !in ref && ':' !in ref'
    requires PushId(repo, ref, after) == PushId(repo', ref', after')
    ensures repo == repo' && ref == ref' && after == after'
  {
    var start := "github:push:poll:";
    var tail, tail' := repo + ":" + (ref + ":" + after), repo' + ":" + (ref' + ":" + after');
    assert PushId(repo, ref, after) == start + tail && PushId(repo', ref', after') == start + tail';
    SameTail(start, tail, tail');
    ColonEnds(repo, ref + ":" + after, repo', ref' + ":" + after');
    ColonEnds(ref, after, ref', after');
  }

  lemma SameTail(a: string, b: string, c: string)
    requires a + b == a + c
    ensures b == c
  {
    assert (a + b)[|a|..] == b && (a + c)[|a|..] == c;
  }

  lemma CarriesEither(a: seq<Event>, b: seq<Event>, id: string)
    ensures Carries(a + b, id) <==> Carries(a, id) || Carries(b, id)
  {
    if i :| 0 <= i < |a| && a[i].id == id {
      assert (a + b)[i].id == id;
    }
    if i :| 0 <= i < |b| && b[i].id == id {
      assert (a + b)[|a| + i].id == id;
    }
  }

  /** The recorded head is another one than the head shown. */
  predicate Moves(recorded: Option<string>, shown: Option<string>, after: string) {
    shown == Some(after) && Truthy(recorded) && recorded != Some(after)
  }

  lemma OneAnswer(heads: map<string, string>, r: RepoAnswer, now: int, repo: string, ref: string, after: string)
    requires ':' !in repo && ':' !in ref && ':' !in r.repo && ':' !in r.ref && (r.repo == repo ==> r.ref == ref)
    ensures var (next, pushes) := CollectPush(heads, r, now);
      && (Carries(pushes, PushId(repo, ref, after)) <==>
            r.repo == repo && Moves(HeadOf(heads, repo), if Truthy(r.head) then r.head else None, after))
      && HeadOf(next, repo) == (if r.repo == repo && Truthy(r.head) then r.head else HeadOf(heads, repo))
  {
    hide PushId;
    var (next, pushes) := CollectPush(heads, r, now);
    if pushes != [] {
      assert pushes[0].id == PushId(r.repo, r.ref, r.head.value);
      if pushes[0].id == PushId(repo, ref, after) {
        PushIdNames(repo, ref, after, r.repo, r.ref, r.head.value);
      }
    }
  }

  /** Collecting the repositories reports a push to `after` exactly when the repository shows
      that head while another one is recorded, and records the head shown. */
  lemma {:induction false} ReposReport(heads: map<string, string>, repos: seq<RepoAnswer>, now: int, repo: string, ref: string, after: string)
    requires ':' !in repo && ':' !in ref && Once(repos) && WellNamed(repos) && OnBranch(repos, repo, ref)
    requires ListingsFreeOf(repos, PushId(repo, ref, after))
    ensures var (last, events) := CollectRepos(heads, repos, now); var shown := ShownIn(repos, repo);
      && (Carries(events, PushId(repo, ref, after)) <==> Moves(HeadOf(heads, repo), shown, after))
      && HeadOf(last, repo) == (if shown.Some? then shown else HeadOf(heads, repo))
    decreases |repos|
  {
    hide PushId, CollectPush, HeadOf;
    if repos != [] {
      var r, rest := repos[0], repos[1..];
      assert Once(rest) && WellNamed(rest) && OnBranch(rest, repo, ref);
      assert forall i | 0 <= i < |rest| :: rest[i] == repos[i + 1];
      if !r.polled {
        ReposReport(heads, rest, now, repo, ref, after);
      } else {
        var id := PushId(repo, ref, after);
        var (next, pushes) := CollectPush(heads, r, now);
        OneAnswer(heads, r, now, repo, ref, after);
        ReposReport(next, rest, now, repo, ref, after);
        var listed := if r.events.Some? then r.events.value else [];
        assert !Carries(listed, id);
        CarriesEither(pushes, listed, id);
        CarriesEither(pushes + listed, CollectRepos(next, rest, now).1, id);
        if r.repo == repo {
          ShownOnce(rest, repo);
        }
      }
    }
  }

  lemma {:induction false} ShownOnce(repos: seq<RepoAnswer>, repo: string)
    requires forall i | 0 <= i < |repos| && repos[i].polled :: repos[i].repo != repo
    ensures ShownIn(repos, repo).None?
  {
    if repos != [] {
      ShownOnce(repos[1..], repo);
    }
  }

  ghost predicate FetchesFreeOf(fetch: SubjectKey -> Option<seq<Event>>, id: string) {
    forall k :: fetch(k).Some? ==> FreeOf(fetch(k).value, id)
  }

  lemma {:induction false} SubjectsFreeOf(
      subjects: map<SubjectKey, Subject>, due: seq<SubjectKey>, fetch: SubjectKey -> Option<seq<Event>>, now: int, id: string)
    requires FetchesFreeOf(fetch, id)
    ensures !Carries(CheckSubjects(subjects, due, fetch, now).1, id)
    decreases |due|
  {
    if due != [] {
      var k := due[0];
      var marked := if k in subjects then subjects[k := subjects[k].(lastChecked := Some(now))] else subjects;
      SubjectsFreeOf(marked, due[1..], fetch, now, id);
      CarriesEither(if fetch(k).Some? then fetch(k).value else [], CheckSubjects(marked, due[1..], fetch, now).1, id);
    }
  }

  // ---------------------------------------------------------------- over runs

  /** The tick gets as far as collecting. */
  predicate Collects(store: Store, step: Step) {
    step.Polled? && store.received.Some? && step.tick.repos.Some?
  }

  function Shown(step: Step, repo: string): Option<string> {
    if step.Polled? && step.tick.repos.Some? then ShownIn(step.tick.repos.value, repo) else None
  }

  /** Only polling makes up the ids of polled pushes, and names keep to their characters. */
  ghost predicate Ordinary(step: Step, repo: string, ref: string, id: string) {
    match step
    case Delivered(e, _) => e.id != id
    case Polled(t) =>
      && FetchesFreeOf(t.fetch, id)
      && (t.repos.Some? ==>
            Once(t.repos.value) && WellNamed(t.repos.value) && OnBranch(t.repos.value, repo, ref) && ListingsFreeOf(t.repos.value, id))
  }

  /** The tick reports a push to `after`: it shows that head while another one is recorded. */
  predicate Reports(store: Store, step: Step, repo: string, after: string) {
    Collects(store, step) && Moves(HeadOf(store.heads, repo), Shown(step, repo), after)
  }

  /** An event with this id is dispatched, and its handler does not throw. */
  predicate Completes(store: Store, step: Step, id: string) {
    step.Polled? &&
    var events := RunTick(store, step.tick).events;
    exists k :: 0 <= k < |events| && events[k].id == id && step.tick.handle(k).completes
  }

  lemma SortCarries(events: seq<Event>, id: string)
    ensures Carries(Sort(BY_OCCURRENCE, events), id) <==> Carries(events, id)
  {
    OccurrenceIsAnOrder();
    SortKeepsMembers(BY_OCCURRENCE, events);
    var sorted := Sort(BY_OCCURRENCE, events);
    if i :| 0 <= i < |events| && events[i].id == id {
      assert events[i] in sorted;
    }
    if i :| 0 <= i < |sorted| && sorted[i].id == id {
      assert sorted[i] in events;
    }
  }

  /** A tick dispatches a push to `after` exactly when it reports one; it records the head
      shown, and nothing else changes the record. */
  lemma TickReports(store: Store, step: Step, repo: string, ref: string, after: string)
    requires ':' !in repo && ':' !in ref && Ordinary(step, repo, ref, PushId(repo, ref, after))
    ensures var id := PushId(repo, ref, after); var next := RunStep(store, step).0;
      && (step.Polled? ==> (Carries(RunTick(store, step.tick).events, id) <==> Reports(store, step, repo, after)))
      && HeadOf(next.heads, repo) == (if Collects(store, step) && Shown(step, repo).Some? then Shown(step, repo) else HeadOf(store.heads, repo))
      && (store.received.Some? ==> next.received.Some?)
  {
    hide PushId, CollectRepos, CheckSubjects, Due, Sort, HeadOf, SubjectOf, Once, WellNamed, OnBranch, ListingsFreeOf;
    if Collects(store, step) {
      var t := step.tick;
      var id := PushId(repo, ref, after);
      ReposReport(store.heads, t.repos.value, t.now, repo, ref, after);
      var due := Due(t.order(store.subjects), store.subjects, t.now, t.base);
      SubjectsFreeOf(store.subjects, due, t.fetch, t.now, id);
      var fromRepos, fromSubjects := CollectRepos(store.heads, t.repos.value, t.now).1, CheckSubjects(store.subjects, due, t.fetch, t.now).1;
      CarriesEither(fromRepos, fromSubjects, id);
      SortCarries(fromRepos + fromSubjects, id);
      var c := Collect(store, t);
      assert c.events == fromRepos + fromSubjects;
      DispatchAccounts(c.store, Sort(BY_OCCURRENCE, c.events), 0, t.handle);
    } else if step.Polled? {
      assert !Carries([], PushId(repo, ref, after));
    }
  }

  /** The id becomes seen in a step exactly when an event with it completes. */
  lemma StepSees(store: Store, step: Step, id: string)
    requires step.Delivered? ==> step.event.id != id
    ensures id in RunStep(store, step).0.seen <==> id in store.seen || Completes(store, step, id)
  {
    hide Collect, Sort, DispatchFrom;
    if step.Polled? {
      var t := step.tick;
      if store.received.Some? && t.repos.Some? {
        ThrowsAreContained(store, t);
        StepAccounts(store, step);
      }
    }
  }

  ghost predicate AllOrdinary(steps: seq<Step>, repo: string, ref: string, id: string) {
    && ':' !in repo && ':' !in ref
    && forall i | 0 <= i < |steps| :: Ordinary(steps[i], repo, ref, id)
  }

  /** At step `m` of the run a push to `after` is reported and its handler completes. */
  predicate HandledAt(store: Store, steps: seq<Step>, m: nat, repo: string, ref: string, after: string)
    requires m < |steps|
  {
    var s := StateAt(store, steps, m);
    Reports(s, steps[m], repo, after) && Completes(s, steps[m], PushId(repo, ref, after))
  }

  /** Over every run of ticks and deliveries: the push to a head counts as handled after `n`
      steps exactly when it did at the start, or when at one of the steps the repository
      showed that head while another one was recorded and the handler completed at that
      very tick. */
  lemma {:induction false} PushIsHandledExactly(store: Store, steps: seq<Step>, n: nat, repo: string, ref: string, after: string)
    requires n <= |steps| && AllOrdinary(steps, repo, ref, PushId(repo, ref, after))
    ensures PushId(repo, ref, after) in StateAt(store, steps, n).seen <==>
      || PushId(repo, ref, after) in store.seen
      || exists m: nat :: m < n && HandledAt(store, steps, m, repo, ref, after)
    decreases n
  {
    hide PushId, RunStep, Reports, Completes, Ordinary;
    if n > 0 {
      var m := n - 1;
      var s := StateAt(store, steps, m);
      PushIsHandledExactly(store, steps, m, repo, ref, after);
      assert Ordinary(steps[m], repo, ref, PushId(repo, ref, after));
      OrdinaryDelivery(steps[m], repo, ref, PushId(repo, ref, after));
      StepSees(s, steps[m], PushId(repo, ref, after));
      CompletesOnlyReported(s, steps[m], repo, ref, after);
      if Completes(s, steps[m], PushId(repo, ref, after)) {
        assert HandledAt(store, steps, m, repo, ref, after);
      }
    }
  }

  lemma OrdinaryDelivery(step: Step, repo: string, ref: string, id: string)
    requires Ordinary(step, repo, ref, id)
    ensures step.Delivered? ==> step.event.id != id
  {
  }

  lemma CompletesOnlyReported(s: Store, step: Step, repo: string, ref: string, after: string)
    requires ':' !in repo && ':' !in ref && Ordinary(step, repo, ref, PushId(repo, ref, after))
    ensures Completes(s, step, PushId(repo, ref, after)) ==> Reports(s, step, repo, after)
  {
    hide PushId, RunTick, RunStep, Reports, Ordinary;
    TickReports(s, step, repo, ref, after);
  }

  /** From a recorded head on, steps `i` to `n` show no other head of the repository. */
  predicate ShowsNoOther(steps: seq<Step>, i: nat, n: nat, repo: string, head: string)
    requires n <= |steps|
  {
    forall m | i <= m < n :: Shown(steps[m], repo) in [None, Some(head)]
  }

  /** A recorded head stays recorded, and no push to it is reported, for as long as the
      repository shows no other head: a push whose handler failed is not tried again. */
  lemma {:induction false} FailedPushIsLost(store: Store, steps: seq<Step>, i: nat, n: nat, repo: string, ref: string, after: string)
    requires i <= n <= |steps| && AllOrdinary(steps, repo, ref, PushId(repo, ref, after))
    requires HeadOf(StateAt(store, steps, i).heads, repo) == Some(after) && PushId(repo, ref, after) !in StateAt(store, steps, i).seen
    requires ShowsNoOther(steps, i, n, repo, after)
    ensures HeadOf(StateAt(store, steps, n).heads, repo) == Some(after) && PushId(repo, ref, after) !in StateAt(store, steps, n).seen
    decreases n
  {
    hide PushId, RunStep, Ordinary, HeadOf, Shown, Completes, Collects;
    if i < n {
      var m := n - 1;
      FailedPushIsLost(store, steps, i, m, repo, ref, after);
      var s := StateAt(store, steps, m);
      assert Ordinary(steps[m], repo, ref, PushId(repo, ref, after));
      assert Shown(steps[m], repo) in [None, Some(after)];
      TickReports(s, steps[m], repo, ref, after);
      OrdinaryDelivery(steps[m], repo, ref, PushId(repo, ref, after));
      StepSees(s, steps[m], PushId(repo, ref, after));
      CompletesOnlyReported(s, steps[m], repo, ref, after);
    }
  }

  /** While another head is recorded, showing `after` is reported at that step or earlier. */
  lemma {:induction false} MoveIsReported(store: Store, steps: seq<Step>, k: nat, m: nat, repo: string, ref: string, after: string)
    requires k <= m < |steps| && AllOrdinary(steps, repo, ref, PushId(repo, ref, after))
    requires StateAt(store, steps, k).received.Some?
    requires Truthy(HeadOf(StateAt(store, steps, k).heads, repo)) && HeadOf(StateAt(store, steps, k).heads, repo) != Some(after)
    requires Shown(steps[m], repo) == Some(after)
    ensures exists j: nat :: k <= j <= m && Reports(StateAt(store, steps, j), steps[j], repo, after)
    decreases m - k
  {
    hide PushId, RunStep, Ordinary, HeadOf;
    var s := StateAt(store, steps, k);
    assert Ordinary(steps[k], repo, ref, PushId(repo, ref, after));
    TickReports(s, steps[k], repo, ref, after);
    ShownIsTruthy(steps[k], repo);
    if Shown(steps[k], repo) == Some(after) {
      assert Reports(s, steps[k], repo, after);
    } else {
      MoveIsReported(store, steps, k + 1, m, repo, ref, after);
    }
  }

  lemma ShownIsTruthy(step: Step, repo: string)
    ensures Shown(step, repo).Some? ==> Truthy(Shown(step, repo)) && step.Polled? && step.tick.repos.Some?
  {
    if step.Polled? && step.tick.repos.Some? {
      ShownInIsTruthy(step.tick.repos.value, repo);
    }
  }

  lemma {:induction false} ShownInIsTruthy(repos: seq<RepoAnswer>, repo: string)
    ensures ShownIn(repos, repo).Some? ==> Truthy(ShownIn(repos, repo))
  {
    if repos != [] {
      ShownInIsTruthy(repos[1..], repo);
    }
  }

  /** Steps `i` to `n` show another head and, later, `after` again. */
  predicate LeavesAndReturns(steps: seq<Step>, i: nat, n: nat, repo: string, after: string)
    requires n <= |steps|
  {
    exists k, m :: i <= k < m < n && Shown(steps[k], repo).Some? && Shown(steps[k], repo) != Some(after) && Shown(steps[m], repo) == Some(after)
  }

  /** Once `after` is recorded, a push to it is reported again exactly when the repository
      shows another head and then `after` once more. */
  lemma PushIsNotRetried(store: Store, steps: seq<Step>, i: nat, n: nat, repo: string, ref: string, after: string)
    requires i <= n <= |steps| && AllOrdinary(steps, repo, ref, PushId(repo, ref, after))
    requires HeadOf(StateAt(store, steps, i).heads, repo) == Some(after) && StateAt(store, steps, i).received.Some?
    ensures (exists j: nat :: i <= j < n && Reports(StateAt(store, steps, j), steps[j], repo, after))
      <==> LeavesAndReturns(steps, i, n, repo, after)
  {
    hide PushId, RunStep, AllOrdinary, HeadOf, Reports, Shown, LeavesAndReturns, StateAt;
    if j: nat :| i <= j < n && Reports(StateAt(store, steps, j), steps[j], repo, after) {
      ReportedThenReturned(store, steps, i, j, n, repo, ref, after);
    }
    if LeavesAndReturns(steps, i, n, repo, after) {
      ReturnedThenReported(store, steps, i, n, repo, ref, after);
    }
  }

  lemma {:induction false} ReportedThenReturned(store: Store, steps: seq<Step>, i: nat, j: nat, n: nat, repo: string, ref: string, after: string)
    requires i <= j < n <= |steps| && AllOrdinary(steps, repo, ref, PushId(repo, ref, after))
    requires HeadOf(StateAt(store, steps, i).heads, repo) == Some(after) && Reports(StateAt(store, steps, j), steps[j], repo, after)
    ensures LeavesAndReturns(steps, i, n, repo, after)
  {
    hide PushId, RunStep, AllOrdinary, HeadOf, Reports, Shown, StateAt;
    ReportShows(StateAt(store, steps, j), steps[j], repo, after);
    ReportedAfterLeaving(store, steps, i, j, repo, ref, after);
  }

  lemma ReturnedThenReported(store: Store, steps: seq<Step>, i: nat, n: nat, repo: string, ref: string, after: string)
    requires i <= n <= |steps| && AllOrdinary(steps, repo, ref, PushId(repo, ref, after))
    requires StateAt(store, steps, i).received.Some? && LeavesAndReturns(steps, i, n, repo, after)
    ensures exists j: nat :: i <= j < n && Reports(StateAt(store, steps, j), steps[j], repo, after)
  {
    hide PushId, RunStep, Ordinary, HeadOf, Reports, Shown;
    var k, m :| i <= k < m < n && Shown(steps[k], repo).Some? && Shown(steps[k], repo) != Some(after) && Shown(steps[m], repo) == Some(after);
    ReceivedStays(store, steps, i, k, repo, ref, after);
    assert Ordinary(steps[k], repo, ref, PushId(repo, ref, after));
    TickReports(StateAt(store, steps, k), steps[k], repo, ref, after);
    ShownIsTruthy(steps[k], repo);
    MoveIsReported(store, steps, k + 1, m, repo, ref, after);
  }

  lemma ReportShows(s: Store, step: Step, repo: string, after: string)
    requires Reports(s, step, repo, after)
    ensures Shown(step, repo) == Some(after) && HeadOf(s.heads, repo) != Some(after)
  {
  }

  lemma {:induction false} ReportedAfterLeaving(store: Store, steps: seq<Step>, i: nat, j: nat, repo: string, ref: string, after: string)
    requires i <= j < |steps| && AllOrdinary(steps, repo, ref, PushId(repo, ref, after))
    requires HeadOf(StateAt(store, steps, i).heads, repo) == Some(after) && Reports(StateAt(store, steps, j), steps[j], repo, after)
    ensures exists k: nat :: i <= k < j && Shown(steps[k], repo).Some? && Shown(steps[k], repo) != Some(after)
    decreases j - i
  {
    hide PushId, RunStep, Ordinary, HeadOf, Shown, Reports;
    ReportShows(StateAt(store, steps, j), steps[j], repo, after);
    if i < j {
      assert Ordinary(steps[i], repo, ref, PushId(repo, ref, after));
      TickReports(StateAt(store, steps, i), steps[i], repo, ref, after);
      if Shown(steps[i], repo) in [None, Some(after)] {
        ReportedAfterLeaving(store, steps, i + 1, j, repo, ref, after);
      }
    }
  }

  lemma {:induction false} ReceivedStays(store: Store, steps: seq<Step>, i: nat, n: nat, repo: string, ref: string, after: string)
    requires i <= n <= |steps| && AllOrdinary(steps, repo, ref, PushId(repo, ref, after)) && StateAt(store, steps, i).received.Some?
    ensures StateAt(store, steps, n).received.Some?
    decreases n
  {
    hide PushId, RunStep, Ordinary;
    if i < n {
      ReceivedStays(store, steps, i, n - 1, repo, ref, after);
      assert Ordinary(steps[n - 1], repo, ref, PushId(repo, ref, after));
      TickReports(StateAt(store, steps, n - 1), steps[n - 1], repo, ref, after);
    }
  }

  /** Once a push to a head was handled, no later step of the run handles one to the same
      head again, also when the branch went elsewhere in between. */
  lemma {:induction false} RevisitedHeadIsIgnored(store: Store, steps: seq<Step>, i: nat, m: nat, id: string)
    requires i <= m < |steps| && id in StateAt(store, steps, i).seen
    ensures id in StateAt(store, steps, m).seen && id !in RunStep(StateAt(store, steps, m), steps[m]).1
    decreases m
  {
    hide RunStep;
    if i < m {
      RevisitedHeadIsIgnored(store, steps, i, m - 1, id);
      StepAccounts(StateAt(store, steps, m - 1), steps[m - 1]);
    }
    StepAccounts(StateAt(store, steps, m), steps[m]);
  }

  // --------------------------------------------------------------- two runs

  /** A tick that sees one repository with this head; every handler ends alike. */
  function Look(repo: string, ref: string, head: string, completes: bool): Step {
    Polled(Tick(0, 0, Some([RepoAnswer(repo, ref, true, Some(head), None)]), _ => [], _ => None, _ => Handling(completes, 0)))
  }

  lemma LookIsOrdinary(repo: string, ref: string, head: string, completes: bool, id: string)
    requires ':' !in repo && ':' !in ref
    ensures Ordinary(Look(repo, ref, head, completes), repo, ref, id)
    ensures Shown(Look(repo, ref, head, completes), repo) == if head != "" then Some(head) else None
    ensures forall store: Store {:trigger Collects(store, Look(repo, ref, head, completes))} ::
      Collects(store, Look(repo, ref, head, completes)) <==> store.received.Some?
  {
    var answers := [RepoAnswer(repo, ref, true, Some(head), None)];
    assert ShownIn(answers, repo) == if head != "" then Some(head) else None;
  }

  /** What happens to a push to `after` in a run that starts at another head: the first
      handler fails. Looking at the same head again does not help; looking elsewhere and
      back does. */
  lemma LostAndRegained(repo: string, ref: string, a: string, b: string)
    requires ':' !in repo && ':' !in ref && a != "" && b != "" && a != b
    ensures var store := Store({}, Some(0), map[], map[repo := a]); var id := PushId(repo, ref, b);
      var stays := [Look(repo, ref, b, false), Look(repo, ref, b, true)];
      var comesBack := [Look(repo, ref, b, false), Look(repo, ref, a, true), Look(repo, ref, b, true)];
      id !in StateAt(store, stays, 2).seen && id in StateAt(store, comesBack, 3).seen
  {
    hide PushId, Ordinary, Look, Shown, RunStep, RunTick, Reports, Collects;
    var store := Store({}, Some(0), map[], map[repo := a]);
    var id := PushId(repo, ref, b);
    var stays := [Look(repo, ref, b, false), Look(repo, ref, b, true)];
    var comesBack := [Look(repo, ref, b, false), Look(repo, ref, a, true), Look(repo, ref, b, true)];
    LookIsOrdinary(repo, ref, b, false, id);
    LookIsOrdinary(repo, ref, b, true, id);
    LookIsOrdinary(repo, ref, a, true, id);
    var failed := RunStep(store, stays[0]).0;
    FailedLook(store, repo, ref, b, id);
    assert StateAt(store, stays, 0) == store && StateAt(store, comesBack, 0) == store;
    assert StateAt(store, stays, 1) == failed && StateAt(store, comesBack, 1) == failed;
    TickReports(store, stays[0], repo, ref, b);
    assert Collects(store, stays[0]);
    assert Shown(stays[1], repo) == Some(b) && Shown(comesBack[1], repo) == Some(a) && Shown(comesBack[2], repo) == Some(b);
    FailedPushIsLost(store, stays, 1, 2, repo, ref, b);
    PushIsNotRetried(store, comesBack, 1, 3, repo, ref, b);
    assert LeavesAndReturns(comesBack, 1, 3, repo, b);
    var j: nat :| 1 <= j < 3 && Reports(StateAt(store, comesBack, j), comesBack[j], repo, b);
    ReportShows(StateAt(store, comesBack, j), comesBack[j], repo, b);
    assert j == 2;
    ReportedLookCompletes(StateAt(store, comesBack, 2), repo, ref, b);
    StepSees(StateAt(store, comesBack, 2), comesBack[2], id);
  }

  lemma FailedLook(store: Store, repo: string, ref: string, head: string, id: string)
    ensures id in RunStep(store, Look(repo, ref, head, false)).0.seen <==> id in store.seen
  {
    hide RunTick;
    StepSees(store, Look(repo, ref, head, false), id);
  }

  lemma ReportedLookCompletes(store: Store, repo: string, ref: string, head: string)
    requires ':' !in repo && ':' !in ref && Reports(store, Look(repo, ref, head, true), repo, head)
    ensures Completes(store, Look(repo, ref, head, true), PushId(repo, ref, head))
  {
    hide PushId, RunTick, Ordinary, Reports;
    LookIsOrdinary(repo, ref, head, true, PushId(repo, ref, head));
    TickReports(store, Look(repo, ref, head, true), repo, ref, head);
  }
}
