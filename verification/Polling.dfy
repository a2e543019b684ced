/** Event ingestion: the polling tick (src/github-events/polling.ts), the
    dispatcher (src/github-events/dispatcher.ts) and the tables behind them
    (src/github-events/store.ts). Times are milliseconds. */
module Polling {
  import opened Sorting
  import opened Wrappers

  const ONE_DAY := 24 * 60 * 60 * 1000
  const THREE_DAYS := 72 * 60 * 60 * 1000
  const FIFTEEN_MINUTES := 15 * 60 * 1000
  const ONE_HOUR := 60 * 60 * 1000

  datatype Kind = Issue | IssueComment | PullRequest | Review | ReviewComment | Push

  /** `onPullRequest` and `ours` (assigned to the configured user) are read off an issue payload;
      `before` and `after` belong to pushes. */
  datatype Event = Event(
    id: string, kind: Kind, repo: string, number: int, onPullRequest: bool, ours: bool, occurredAt: int,
    before: string, after: string)

  datatype SubjectKey = SubjectKey(repo: string, pullRequest: bool, number: int)

  datatype Subject = Subject(lastActivity: int, lastChecked: Option<int>)

  /** The dedupe table, the two state values and the subjects. */
  datatype Store = Store(seen: set<string>, received: Option<int>, subjects: map<SubjectKey, Subject>, heads: map<string, string>)

  // ------------------------------------------------------------- dispatching

  /** pollingSubjectFromEvent */
  function SubjectOf(e: Event): Option<SubjectKey> {
    match e.kind
    case Issue => if e.ours then Some(SubjectKey(e.repo, false, e.number)) else None
    case IssueComment => if !e.onPullRequest && e.ours then Some(SubjectKey(e.repo, false, e.number)) else None
    case PullRequest => Some(SubjectKey(e.repo, true, e.number))
    case Review => Some(SubjectKey(e.repo, true, e.number))
    case ReviewComment => Some(SubjectKey(e.repo, true, e.number))
    case Push => None
  }

  function Upserted(subjects: map<SubjectKey, Subject>, e: Event): map<SubjectKey, Subject> {
    match SubjectOf(e)
    case None => subjects
    case Some(key) => subjects[key := Subject(e.occurredAt, None)]
  }

  /** What happens after the handler returned. */
  function Completed(store: Store, e: Event, now: int): Store {
    store.(seen := store.seen + {e.id}, received := Some(now), subjects := Upserted(store.subjects, e))
  }

  /** How the handler of an event ends, and when. */
  datatype Handling = Handling(completes: bool, now: int)

  datatype Dispatched = Duplicate | Failed | Handled

  function Dispatch(store: Store, e: Event, h: Handling): (Store, Dispatched) {
    if e.id in store.seen then (store, Duplicate)
    else if !h.completes then (store, Failed)
    else (Completed(store, e, h.now), Handled)
  }

  /** The dispatch loop from position `i`; the second part lists the ids completed. */
  function DispatchFrom(store: Store, events: seq<Event>, i: nat, handle: nat -> Handling): (Store, seq<string>)
    requires i <= |events|
    decreases |events| - i
  {
    if i == |events| then (store, [])
    else
      var (next, how) := Dispatch(store, events[i], handle(i));
      var (last, done) := DispatchFrom(next, events, i + 1, handle);
      (last, (if how.Handled? then [events[i].id] else []) + done)
  }

  // -------------------------------------------------------------- collecting

  function PushId(repo: string, ref: string, after: string): string {
    "github:push:poll:" + repo + ":" + ref + ":" + after
  }

  function PushOf(repo: string, ref: string, before: string, after: string, now: int): Event {
    Event(PushId(repo, ref, after), Push, repo, 0, false, false, now, before, after)
  }

  /** What GitHub answers for a repository: its default-branch head, None when the call
      fails or finds none, and the six listings, None when one of them fails. */
  datatype RepoAnswer = RepoAnswer(repo: string, ref: string, polled: bool, head: Option<string>, events: Option<seq<Event>>)

  predicate Truthy(s: Option<string>) {
    s.Some? && s.value != ""
  }

  function HeadOf(heads: map<string, string>, repo: string): Option<string> {
    if repo in heads then Some(heads[repo]) else None
  }

  /** collectDefaultBranchPush: the head is recorded before anything is dispatched. */
  function CollectPush(heads: map<string, string>, r: RepoAnswer, now: int): (map<string, string>, seq<Event>) {
    if !Truthy(r.head) then (heads, [])
    else
      var previous, head := HeadOf(heads, r.repo), r.head.value;
      (heads[r.repo := head], if Truthy(previous) && previous.value != head then [PushOf(r.repo, r.ref, previous.value, head, now)] else [])
  }

  function CollectRepos(heads: map<string, string>, repos: seq<RepoAnswer>, now: int): (map<string, string>, seq<Event>)
    decreases |repos|
  {
    if repos == [] then (heads, [])
    else if !repos[0].polled then CollectRepos(heads, repos[1..], now)
    else
      var (pushed, pushes) := CollectPush(heads, repos[0], now);
      var (last, events) := CollectRepos(pushed, repos[1..], now);
      (last, pushes + (if repos[0].events.Some? then repos[0].events.value else []) + events)
  }

  /** pollingSubjectCheckIntervalMs */
  function CheckInterval(lastActivity: int, now: int, base: int): int {
    var idle := if now - lastActivity > 0 then now - lastActivity else 0;
    if idle >= THREE_DAYS then ONE_HOUR else if idle >= ONE_DAY then FIFTEEN_MINUTES else base
  }

  /** isPollingSubjectDue */
  predicate IsDue(s: Subject, now: int, base: int) {
    s.lastChecked.None? || now - s.lastChecked.value >= CheckInterval(s.lastActivity, now, base)
  }

  function Due(keys: seq<SubjectKey>, subjects: map<SubjectKey, Subject>, now: int, base: int): (r: seq<SubjectKey>)
    ensures forall k :: k in r <==> k in keys && k in subjects && IsDue(subjects[k], now, base)
  {
    if keys == [] then []
    else (if keys[0] in subjects && IsDue(subjects[keys[0]], now, base) then [keys[0]] else []) + Due(keys[1..], subjects, now, base)
  }

  /** The loop over the due subjects marks each as checked, whether its fetch fails or not. */
  function CheckSubjects(subjects: map<SubjectKey, Subject>, due: seq<SubjectKey>, fetch: SubjectKey -> Option<seq<Event>>, now: int)
    : (r: (map<SubjectKey, Subject>, seq<Event>))
    ensures r.0.Keys == subjects.Keys
    ensures forall k <- subjects :: r.0[k] == if k in due then subjects[k].(lastChecked := Some(now)) else subjects[k]
    decreases |due|
  {
    if due == [] then (subjects, [])
    else
      var k := due[0];
      var marked := if k in subjects then subjects[k := subjects[k].(lastChecked := Some(now))] else subjects;
      var (last, events) := CheckSubjects(marked, due[1..], fetch, now);
      (last, (if fetch(k).Some? then fetch(k).value else []) + events)
  }

  // -------------------------------------------------------------------- ticks

  /** `repos` is None when the repositories cannot be listed; `order` is the order in which
      the subjects are read. */
  datatype Tick = Tick(
    now: int, base: int, repos: Option<seq<RepoAnswer>>, order: map<SubjectKey, Subject> -> seq<SubjectKey>,
    fetch: SubjectKey -> Option<seq<Event>>, handle: nat -> Handling)

  ghost predicate ReadsAll(t: Tick) {
    forall subjects: map<SubjectKey, Subject> {:trigger t.order(subjects)} :: forall k :: k in t.order(subjects) <==> k in subjects
  }

  const BY_OCCURRENCE: (Event, Event) -> bool := (a: Event, b: Event) => a.occurredAt <= b.occurredAt

  /** The state once events are collected, and the events in the order they came. */
  datatype Collected = Collected(store: Store, events: seq<Event>)

  function Collect(store: Store, t: Tick): Collected
    requires t.repos.Some?
  {
    var (heads, fromRepos) := CollectRepos(store.heads, t.repos.value, t.now);
    var due := Due(t.order(store.subjects), store.subjects, t.now, t.base);
    var (subjects, fromSubjects) := CheckSubjects(store.subjects, due, t.fetch, t.now);
    Collected(store.(heads := heads, subjects := subjects), fromRepos + fromSubjects)
  }

  datatype TickEnd = TickEnd(store: Store, events: seq<Event>, done: seq<string>)

  /** tickGitHubPolling */
  function RunTick(store: Store, t: Tick): TickEnd {
    if store.received.None? then TickEnd(store.(received := Some(t.now)), [], [])
    else if t.repos.None? then TickEnd(store, [], [])
    else
      var c := Collect(store, t);
      var events := Sort(BY_OCCURRENCE, c.events);
      var (last, done) := DispatchFrom(c.store, events, 0, t.handle);
      TickEnd(last, events, done)
  }

  // -------------------------------------------------------- the running steps

  class EventStore {
    var seen: set<string>
    var received: Option<int>
    var subjects: map<SubjectKey, Subject>
    var heads: map<string, string>

    constructor (store: Store)
      ensures Contents() == store
    {
      seen, received, subjects, heads := store.seen, store.received, store.subjects, store.heads;
    }

    function Contents(): Store
      reads this
    {
      Store(seen, received, subjects, heads)
    }

    method MarkSeen(e: Event)
      modifies this`seen
      ensures seen == old(seen) + {e.id}
    {
      seen := seen + {e.id};
    }

    method UpdateLastEventReceivedAt(now: int)
      modifies this`received
      ensures received == Some(now)
    {
      received := Some(now);
    }

    method UpsertPollingSubject(key: SubjectKey, subject: Subject)
      modifies this`subjects
      ensures subjects == old(subjects)[key := subject]
    {
      subjects := subjects[key := subject];
    }

    method MarkPollingSubjectChecked(key: SubjectKey, now: int)
      modifies this`subjects
      ensures subjects == if key in old(subjects) then old(subjects)[key := old(subjects)[key].(lastChecked := Some(now))] else old(subjects)
    {
      if key in subjects {
        subjects := subjects[key := subjects[key].(lastChecked := Some(now))];
      }
    }

    method SetDefaultBranchHead(repo: string, sha: string)
      modifies this`heads
      ensures heads == old(heads)[repo := sha]
    {
      heads := heads[repo := sha];
    }

    /** GitHubEventDispatcher.dispatch */
    method DispatchEvent(e: Event, h: Handling) returns (how: Dispatched)
      modifies this
      ensures Dispatch(old(Contents()), e, h) == (Contents(), how)
    {
      if e.id in seen {
        return Duplicate;
      }
      if !h.completes {
        return Failed;
      }
      MarkSeen(e);
      UpdateLastEventReceivedAt(h.now);
      var subject := SubjectOf(e);
      if subject.Some? {
        UpsertPollingSubject(subject.value, Subject(e.occurredAt, None));
      }
      return Handled;
    }

    method CollectDefaultBranchPush(r: RepoAnswer, now: int) returns (events: seq<Event>)
      modifies this`heads
      ensures CollectPush(old(heads), r, now) == (heads, events)
    {
      if r.head.None? || r.head.value == "" {
        return [];
      }
      var previous := HeadOf(heads, r.repo);
      SetDefaultBranchHead(r.repo, r.head.value);
      if Truthy(previous) && previous.value != r.head.value {
        return [PushOf(r.repo, r.ref, previous.value, r.head.value, now)];
      }
      return [];
    }

    method CollectDueSubjectEvents(t: Tick) returns (events: seq<Event>)
      modifies this`subjects
      ensures CheckSubjects(old(subjects), Due(t.order(old(subjects)), old(subjects), t.now, t.base), t.fetch, t.now) == (subjects, events)
    {
      hide IsDue;
      var due := Due(t.order(subjects), subjects, t.now, t.base);
      events := [];
      var i := 0;
      ghost var all := CheckSubjects(subjects, due, t.fetch, t.now);
      assert [] + all.1 == all.1;
      assert due[0..] == due;
      while i < |due|
        invariant 0 <= i <= |due|
        invariant var (last, rest) := CheckSubjects(subjects, due[i..], t.fetch, t.now);
          all == (last, events + rest)
      {
        assert due[i..][0] == due[i] && due[i..][1..] == due[i + 1..];
        var fetched := if t.fetch(due[i]).Some? then t.fetch(due[i]).value else [];
        MarkPollingSubjectChecked(due[i], t.now);
        Regroup(events, fetched, CheckSubjects(subjects, due[i + 1..], t.fetch, t.now).1);
        events := events + fetched;
        i := i + 1;
      }
      assert events + [] == events;
    }

    method TickGitHubPolling(t: Tick) returns (events: seq<Event>, done: seq<string>)
      modifies this
      ensures RunTick(old(Contents()), t) == TickEnd(Contents(), events, done)
    {
      hide CollectPush, Dispatch, Due, CheckSubjects, Sort;
      if received.None? {
        received := Some(t.now);
        return [], [];
      }
      if t.repos.None? {
        return [], [];
      }
      var repos := t.repos.value;
      var fromRepos := CollectFromRepos(repos, t.now);
      assert CollectRepos(old(heads), repos, t.now) == (heads, fromRepos);
      var fromSubjects := CollectDueSubjectEvents(t);
      ghost var c := Collect(old(Contents()), t);
      assert c == Collected(Contents(), fromRepos + fromSubjects);
      events := Sort(BY_OCCURRENCE, fromRepos + fromSubjects);
      done := DispatchAll(events, t.handle);
    }

    method CollectFromRepos(repos: seq<RepoAnswer>, now: int) returns (events: seq<Event>)
      modifies this`heads
      ensures CollectRepos(old(heads), repos, now) == (heads, events)
    {
      hide CollectPush;
      events := [];
      var i := 0;
      ghost var all := CollectRepos(heads, repos, now);
      assert [] + all.1 == all.1;
      assert repos[0..] == repos;
      while i < |repos|
        invariant 0 <= i <= |repos|
        invariant var (last, rest) := CollectRepos(heads, repos[i..], now);
          all == (last, events + rest)
      {
        assert repos[i..][0] == repos[i] && repos[i..][1..] == repos[i + 1..];
        if repos[i].polled {
          var pushes := CollectDefaultBranchPush(repos[i], now);
          var listed := if repos[i].events.Some? then repos[i].events.value else [];
          Regroup(events, pushes + listed, CollectRepos(heads, repos[i + 1..], now).1);
          events := events + (pushes + listed);
        }
        i := i + 1;
      }
      assert events + [] == events;
    }

    method DispatchAll(events: seq<Event>, handle: nat -> Handling) returns (done: seq<string>)
      modifies this
      ensures DispatchFrom(old(Contents()), events, 0, handle) == (Contents(), done)
    {
      hide Dispatch;
      done := [];
      var i := 0;
      ghost var all := DispatchFrom(Contents(), events, 0, handle);
      assert [] + all.1 == all.1;
      while i < |events|
        invariant 0 <= i <= |events|
        invariant var (last, rest) := DispatchFrom(Contents(), events, i, handle);
          all == (last, done + rest)
      {
        var how := DispatchEvent(events[i], handle(i));
        var handled := if how.Handled? then [events[i].id] else [];
        Regroup(done, handled, DispatchFrom(Contents(), events, i + 1, handle).1);
        done := done + handled;
        i := i + 1;
      }
      assert done + [] == done;
    }
  }

  lemma Regroup<T>(a: seq<T>, b: seq<T>, c: seq<T>)
    ensures a + b + c == a + (b + c)
  {
  }

  // ---------------------------------------------------------- what a tick does

  /** A tick dispatches exactly what it collected, each event as often as it was collected,
      in nondecreasing order of occurrence, ties in the order collected. */
  lemma TickDispatchesInOrder(store: Store, t: Tick)
    requires store.received.Some? && t.repos.Some?
    ensures var events := RunTick(store, t).events; var collected := Collect(store, t).events;
      && multiset(events) == multiset(collected)
      && (forall i, j | 0 <= i < j < |events| :: events[i].occurredAt <= events[j].occurredAt)
      && (forall e :: Ties(BY_OCCURRENCE, e, events) == Ties(BY_OCCURRENCE, e, collected))
  {
    hide Collect, DispatchFrom;
    var collected := Collect(store, t).events;
    OccurrenceIsAnOrder();
    SortIsStable(BY_OCCURRENCE, collected);
    var events := Sort(BY_OCCURRENCE, collected);
    forall i, j | 0 <= i < j < |events|
      ensures events[i].occurredAt <= events[j].occurredAt
    {
      assert BY_OCCURRENCE(events[i], events[j]);
    }
  }

  /** A repository's listings hold the event. */
  predicate ListedBy(repos: seq<RepoAnswer>, e: Event) {
    exists i :: 0 <= i < |repos| && Lists(repos[i], e)
  }

  /** One of the due subjects brought the event. */
  predicate FetchedForSubject(store: Store, t: Tick, e: Event) {
    exists k <- t.order(store.subjects) ::
      && k in store.subjects && IsDue(store.subjects[k], t.now, t.base) && t.fetch(k).Some? && e in t.fetch(k).value
  }

  /** The event reports that a repository shows another head than before. */
  predicate ReportsAHead(repos: seq<RepoAnswer>, e: Event, now: int) {
    exists i :: 0 <= i < |repos| && Reports(repos[i], e, now)
  }

  lemma {:induction false} ReposBring(heads: map<string, string>, repos: seq<RepoAnswer>, now: int, e: Event)
    ensures var events := CollectRepos(heads, repos, now).1;
      && (ListedBy(repos, e) ==> e in events)
      && (e in events ==> ListedBy(repos, e) || ReportsAHead(repos, e, now))
    decreases |repos|
  {
    if repos != [] {
      var r, rest := repos[0], repos[1..];
      ReposBring(if r.polled then CollectPush(heads, r, now).0 else heads, rest, now, e);
      assert repos == [r] + rest;
      ListedByParts(r, rest, e);
      ReportsParts(r, rest, e, now);
    }
  }

  predicate Lists(r: RepoAnswer, e: Event) {
    r.polled && r.events.Some? && e in r.events.value
  }

  predicate Reports(r: RepoAnswer, e: Event, now: int) {
    && r.polled && r.head == Some(e.after) && e.before != e.after && e.before != "" && e.after != ""
    && e == PushOf(r.repo, r.ref, e.before, e.after, now)
  }

  lemma ListedByParts(r: RepoAnswer, rest: seq<RepoAnswer>, e: Event)
    ensures ListedBy([r] + rest, e) <==> Lists(r, e) || ListedBy(rest, e)
  {
    var repos := [r] + rest;
    assert repos[0] == r;
    if i :| 0 <= i < |repos| && Lists(repos[i], e) {
      if i > 0 {
        assert repos[i] == rest[i - 1];
      }
    }
    if i :| 0 <= i < |rest| && Lists(rest[i], e) {
      assert repos[i + 1] == rest[i];
    }
  }

  lemma ReportsParts(r: RepoAnswer, rest: seq<RepoAnswer>, e: Event, now: int)
    ensures ReportsAHead([r] + rest, e, now) <==> Reports(r, e, now) || ReportsAHead(rest, e, now)
  {
    hide Reports;
    var repos := [r] + rest;
    assert repos[0] == r;
    if i :| 0 <= i < |repos| && Reports(repos[i], e, now) {
      if i > 0 {
        assert repos[i] == rest[i - 1];
      }
    }
    if i :| 0 <= i < |rest| && Reports(rest[i], e, now) {
      assert repos[i + 1] == rest[i];
    }
  }

  lemma {:induction false} SubjectsBring(subjects: map<SubjectKey, Subject>, due: seq<SubjectKey>, fetch: SubjectKey -> Option<seq<Event>>, now: int, e: Event)
    ensures e in CheckSubjects(subjects, due, fetch, now).1 <==> exists k <- due :: fetch(k).Some? && e in fetch(k).value
    decreases |due|
  {
    if due != [] {
      var k := due[0];
      var marked := if k in subjects then subjects[k := subjects[k].(lastChecked := Some(now))] else subjects;
      SubjectsBring(marked, due[1..], fetch, now, e);
      assert due == [k] + due[1..];
    }
  }

  /** What a tick collects: every event listed for a repository or fetched for a due subject,
      and besides these only pushes that report another head. */
  lemma CollectsWhatIsListed(store: Store, t: Tick, e: Event)
    requires t.repos.Some?
    ensures var events := Collect(store, t).events;
      && (ListedBy(t.repos.value, e) || FetchedForSubject(store, t, e) ==> e in events)
      && (e in events ==> ListedBy(t.repos.value, e) || FetchedForSubject(store, t, e) || ReportsAHead(t.repos.value, e, t.now))
  {
    hide CollectRepos, CheckSubjects, IsDue, ListedBy, ReportsAHead;
    ReposBring(store.heads, t.repos.value, t.now, e);
    SubjectsBring(store.subjects, Due(t.order(store.subjects), store.subjects, t.now, t.base), t.fetch, t.now, e);
  }

  /** A handled event renews exactly its own subject: the pull request it is about, or the
      issue, when that is assigned to us and the comment is not on a pull request. */
  lemma HandledRenewsItsSubject(store: Store, e: Event, h: Handling)
    requires e.id !in store.seen && h.completes
    ensures var next := Dispatch(store, e, h).0;
      var onPull := e.kind in {PullRequest, Review, ReviewComment};
      var renews := onPull || (e.ours && (e.kind == Issue || (e.kind == IssueComment && !e.onPullRequest)));
      && next.subjects == (if renews then store.subjects[SubjectKey(e.repo, onPull, e.number) := Subject(e.occurredAt, None)] else store.subjects)
      && next.seen == store.seen + {e.id} && next.received == Some(h.now) && next.heads == store.heads
  {
  }

  /** The first tick only starts the polling: it notes its time and looks at nothing. No tick
      ever takes that back, so every later one with readable repositories collects. */
  lemma FirstTickOnlyStarts(store: Store, t: Tick)
    ensures var r := RunTick(store, t);
      && r.store.received.Some?
      && (store.received.None? ==> r == TickEnd(store.(received := Some(t.now)), [], []))
      && (store.received.Some? && t.repos.None? ==> r == TickEnd(store, [], []))
  {
    if store.received.Some? && t.repos.Some? {
      var c := Collect(store, t);
      DispatchKeepsReceived(c.store, Sort(BY_OCCURRENCE, c.events), 0, t.handle);
    }
  }

  lemma {:induction false} DispatchKeepsReceived(store: Store, events: seq<Event>, i: nat, handle: nat -> Handling)
    requires i <= |events| && store.received.Some?
    ensures DispatchFrom(store, events, i, handle).0.received.Some?
    decreases |events| - i
  {
    if i < |events| {
      DispatchKeepsReceived(Dispatch(store, events[i], handle(i)).0, events, i + 1, handle);
    }
  }

  lemma OccurrenceIsAnOrder()
    ensures TotalPreorder(BY_OCCURRENCE)
  {
  }

  predicate Distinct(ids: seq<string>) {
    forall i, j | 0 <= i < j < |ids| :: ids[i] != ids[j]
  }

  /** The ids completed are new, pairwise different, and exactly what becomes seen; every
      event whose handler did not throw is seen afterwards, whatever the others did. */
  predicate Accounted(before: set<string>, after: set<string>, done: seq<string>) {
    && Distinct(done)
    && (forall i | 0 <= i < |done| :: done[i] !in before)
    && after == before + (set i | 0 <= i < |done| :: done[i])
  }

  /** Every event from position `i` on is seen unless its handler threw, and nothing else
      became seen. */
  predicate Contained(before: set<string>, after: set<string>, events: seq<Event>, i: nat, handle: nat -> Handling) {
    && (forall k | i <= k < |events| :: events[k].id in after || !handle(k).completes)
    && (forall id <- after :: id in before || exists k :: i <= k < |events| && events[k].id == id && handle(k).completes)
  }

  lemma {:induction false} DispatchAccounts(store: Store, events: seq<Event>, i: nat, handle: nat -> Handling)
    requires i <= |events|
    ensures var (last, done) := DispatchFrom(store, events, i, handle);
      && Accounted(store.seen, last.seen, done) && Contained(store.seen, last.seen, events, i, handle)
      && store.seen <= last.seen && last.heads == store.heads && store.subjects.Keys <= last.subjects.Keys
      && (store.received.Some? ==> last.received.Some?)
    decreases |events| - i
  {
    hide Accounted, Contained, SubjectOf;
    if i == |events| {
      NothingCompleted(store.seen, events, handle);
    } else {
      var (next, how) := Dispatch(store, events[i], handle(i));
      DispatchAccounts(next, events, i + 1, handle);
      var (last, rest) := DispatchFrom(next, events, i + 1, handle);
      OneMoreContained(store.seen, next.seen, last.seen, events, i, handle);
      if how.Handled? {
        AccountsForOneMore(store.seen, last.seen, events[i].id, rest);
      } else {
        assert [] + rest == rest;
      }
    }
  }

  lemma OneMoreContained(before: set<string>, next: set<string>, last: set<string>, events: seq<Event>, i: nat, handle: nat -> Handling)
    requires i < |events| && next <= last && Contained(next, last, events, i + 1, handle)
    requires before <= next <= before + {events[i].id} && (handle(i).completes ==> events[i].id in next)
    requires !handle(i).completes ==> next == before
    ensures Contained(before, last, events, i, handle)
  {
    forall id <- last
      ensures id in before || exists k :: i <= k < |events| && events[k].id == id && handle(k).completes
    {
      if id in next && id !in before {
        assert events[i].id == id && handle(i).completes;
      }
    }
  }

  lemma NothingCompleted(seen: set<string>, events: seq<Event>, handle: nat -> Handling)
    ensures Accounted(seen, seen, []) && Contained(seen, seen, events, |events|, handle)
  {
  }

  lemma AccountsForOneMore(before: set<string>, after: set<string>, id: string, rest: seq<string>)
    requires id !in before && Accounted(before + {id}, after, rest)
    ensures Accounted(before, after, [id] + rest)
  {
    var done := [id] + rest;
    assert forall k | 0 <= k < |rest| :: done[k + 1] == rest[k];
    forall x
      ensures x in after <==> x in before + (set i | 0 <= i < |done| :: done[i])
    {
      if x in after && x !in before && x != id {
        var i :| 0 <= i < |rest| && rest[i] == x;
        assert done[i + 1] == x;
      }
      if x == id {
        assert done[0] == x;
      }
    }
  }

  /** One dispatch at a time: ticks, and webhook deliveries between them. */
  datatype Step = Polled(tick: Tick) | Delivered(event: Event, handling: Handling)

  function RunStep(store: Store, step: Step): (Store, seq<string>) {
    match step
    case Polled(t) => (RunTick(store, t).store, RunTick(store, t).done)
    case Delivered(e, h) =>
      var (next, how) := Dispatch(store, e, h);
      (next, if how.Handled? then [e.id] else [])
  }

  function RunAll(store: Store, steps: seq<Step>): (Store, seq<string>)
    decreases |steps|
  {
    if steps == [] then (store, [])
    else
      var (next, done) := RunStep(store, steps[0]);
      var (last, rest) := RunAll(next, steps[1..]);
      (last, done + rest)
  }

  lemma StepAccounts(store: Store, step: Step)
    ensures var (next, done) := RunStep(store, step); Accounted(store.seen, next.seen, done)
  {
    hide Collect, Sort;
    match step {
      case Polled(t) =>
        if store.received.Some? && t.repos.Some? {
          var c := Collect(store, t);
          CollectKeepsSeen(store, t);
          DispatchAccounts(c.store, Sort(BY_OCCURRENCE, c.events), 0, t.handle);
        } else {
          assert RunTick(store, t).done == [];
        }
      case Delivered(e, h) =>
        var (next, how) := Dispatch(store, e, h);
        if how.Handled? {
          var none: seq<string> := [];
          assert Accounted(store.seen + {e.id}, next.seen, none);
          AccountsForOneMore(store.seen, next.seen, e.id, none);
          assert [e.id] + none == [e.id];
        }
    }
  }

  lemma CollectKeepsSeen(store: Store, t: Tick)
    requires t.repos.Some?
    ensures Collect(store, t).store.seen == store.seen && Collect(store, t).store.received == store.received
  {
  }

  lemma AccountsForBoth(a: set<string>, b: set<string>, c: set<string>, first: seq<string>, second: seq<string>)
    requires Accounted(a, b, first) && Accounted(b, c, second)
    ensures Accounted(a, c, first + second)
  {
    var done := first + second;
    forall i | 0 <= i < |first|
      ensures first[i] in b
    {
    }
    forall i, j | 0 <= i < j < |done|
      ensures done[i] != done[j]
    {
      if i < |first| <= j {
        assert done[i] == first[i] && done[j] == second[j - |first|];
      }
    }
    forall x
      ensures x in c <==> x in a + (set i | 0 <= i < |done| :: done[i])
    {
      if x in c && x !in a {
        if x in b {
          var i :| 0 <= i < |first| && first[i] == x;
          assert done[i] == x;
        } else {
          var i :| 0 <= i < |second| && second[i] == x;
          assert done[|first| + i] == x;
        }
      }
    }
  }

  /** Over all ticks and deliveries, one at a time, every event id completes at most once
      and is marked seen exactly when it completed. */
  lemma {:induction false} EveryIdCompletesOnce(store: Store, steps: seq<Step>)
    ensures var (last, done) := RunAll(store, steps); Accounted(store.seen, last.seen, done)
    decreases |steps|
  {
    hide RunStep, Accounted;
    if steps == [] {
      NothingCompleted(store.seen, [], i => Handling(false, 0));
    } else {
      var (next, done) := RunStep(store, steps[0]);
      StepAccounts(store, steps[0]);
      EveryIdCompletesOnce(next, steps[1..]);
      var (last, rest) := RunAll(next, steps[1..]);
      AccountsForBoth(store.seen, next.seen, last.seen, done, rest);
    }
  }

  /** An event whose handler throws stays unseen unless another event with its id completes,
      and no throw keeps another event from being handled. */
  lemma ThrowsAreContained(store: Store, t: Tick)
    requires store.received.Some? && t.repos.Some?
    ensures var r := RunTick(store, t);
      Contained(store.seen, r.store.seen, r.events, 0, t.handle)
  {
    hide Collect, Sort;
    var c := Collect(store, t);
    CollectKeepsSeen(store, t);
    DispatchAccounts(c.store, Sort(BY_OCCURRENCE, c.events), 0, t.handle);
  }
}
