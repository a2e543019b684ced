/** When subjects are re-checked, and why ticks do not overlap
    (src/github-events/polling.ts). */
module PollSchedule {
  import opened Polling
  import opened Sorting
  import opened Wrappers

  // ----------------------------------------------------------------- subjects

  /** The step is a tick that reaches the subjects and finds this one due. */
  predicate Checks(store: Store, step: Step, key: SubjectKey) {
    && step.Polled? && store.received.Some? && step.tick.repos.Some?
    && key in Due(step.tick.order(store.subjects), store.subjects, step.tick.now, step.tick.base)
  }

  /** An event about the subject, new to the dedupe table, is handled in the dispatch loop. */
  predicate Refreshes(store: Store, events: seq<Event>, i: nat, handle: nat -> Handling, key: SubjectKey)
    requires i <= |events|
    decreases |events| - i
  {
    i < |events| &&
    var (next, how) := Dispatch(store, events[i], handle(i));
    (how.Handled? && SubjectOf(events[i]) == Some(key)) || Refreshes(next, events, i + 1, handle, key)
  }

  lemma {:induction false} DispatchTouches(store: Store, events: seq<Event>, i: nat, handle: nat -> Handling, key: SubjectKey)
    requires i <= |events| && key in store.subjects
    ensures var last := DispatchFrom(store, events, i, handle).0;
      && key in last.subjects
      && (if Refreshes(store, events, i, handle, key) then last.subjects[key].lastChecked.None? else last.subjects[key] == store.subjects[key])
    decreases |events| - i
  {
    hide SubjectOf;
    if i < |events| {
      var (next, how) := Dispatch(store, events[i], handle(i));
      DispatchTouches(next, events, i + 1, handle, key);
      ResetStays(next, events, i + 1, handle, key);
    }
  }

  lemma ResetStays(store: Store, events: seq<Event>, i: nat, handle: nat -> Handling, key: SubjectKey)
    requires i <= |events| && key in store.subjects
    ensures store.subjects[key].lastChecked.None? ==>
      var last := DispatchFrom(store, events, i, handle).0; key in last.subjects && last.subjects[key].lastChecked.None?
    decreases |events| - i
  {
    hide SubjectOf;
    if i < |events| {
      ResetStays(Dispatch(store, events[i], handle(i)).0, events, i + 1, handle, key);
    }
  }

  /** The step newly handles an event about the subject. */
  predicate Disturbs(store: Store, step: Step, key: SubjectKey) {
    match step
    case Polled(t) =>
      store.received.Some? && t.repos.Some? &&
      var c := Collect(store, t);
      Refreshes(c.store, Sort(BY_OCCURRENCE, c.events), 0, t.handle, key)
    case Delivered(e, h) => e.id !in store.seen && h.completes && SubjectOf(e) == Some(key)
  }

  /** The record of a subject with the time of the step's check, if it makes one. */
  function Checked(store: Store, step: Step, key: SubjectKey): Subject
    requires key in store.subjects
  {
    var s := store.subjects[key];
    if Checks(store, step, key) then s.(lastChecked := Some(step.tick.now)) else s
  }

  /** What one step leaves of a subject: an event about it takes its check time away; without
      one a check writes down the tick's time, and no other step touches the record. */
  lemma StepTouches(store: Store, step: Step, key: SubjectKey)
    requires key in store.subjects
    ensures var next := RunStep(store, step).0;
      && key in next.subjects && (store.received.Some? ==> next.received.Some?)
      && (Disturbs(store, step, key) ==> next.subjects[key].lastChecked.None?)
      && (!Disturbs(store, step, key) ==> next.subjects[key] == Checked(store, step, key))
  {
    hide Due, Sort, CollectRepos, SubjectOf;
    match step {
      case Polled(t) =>
        if store.received.Some? && t.repos.Some? {
          var c := Collect(store, t);
          var events := Sort(BY_OCCURRENCE, c.events);
          DispatchTouches(c.store, events, 0, t.handle, key);
          DispatchAccounts(c.store, events, 0, t.handle);
        }
      case Delivered(e, h) =>
    }
  }

  /** Some step of the run checks the subject at `limit` or before. */
  predicate CheckedBy(store: Store, steps: seq<Step>, key: SubjectKey, limit: int)
    decreases |steps|
  {
    steps != [] && (
      || (Checks(store, steps[0], key) && steps[0].tick.now <= limit)
      || CheckedBy(RunStep(store, steps[0]).0, steps[1..], key, limit))
  }

  /** Every table of subjects can be read in some order. */
  lemma SomeOrderReadsAll(t: Tick)
    ensures exists order: map<SubjectKey, Subject> -> seq<SubjectKey> :: ReadsAll(t.(order := order))
  {
    var order := (subjects: map<SubjectKey, Subject>) => Enumerated(subjects.Keys);
    assert ReadsAll(t.(order := order));
  }

  /** The clock of the ticks never goes back, ticks are at most `gap` apart, and repositories
      can be listed. `last` is the time of the tick before. */
  ghost predicate Regular(steps: seq<Step>, last: int, gap: int)
    decreases |steps|
  {
    steps == [] ||
    if steps[0].Delivered? then Regular(steps[1..], last, gap)
    else
      var t := steps[0].tick;
      last <= t.now <= last + gap && t.base <= 3_600_000 && t.repos.Some? && ReadsAll(t) && Regular(steps[1..], t.now, gap)
  }

  /** The run has a tick at `time` or later. */
  predicate Reaches(steps: seq<Step>, time: int)
    decreases |steps|
  {
    steps != [] && ((steps[0].Polled? && steps[0].tick.now >= time) || Reaches(steps[1..], time))
  }

  lemma NotDueYet(store: Store, t: Tick, key: SubjectKey)
    requires key in store.subjects && store.received.Some? && t.repos.Some? && ReadsAll(t) && t.base <= 3_600_000
    requires !Checks(store, Polled(t), key)
    ensures store.subjects[key].lastChecked.Some? && t.now < store.subjects[key].lastChecked.value + 3_600_000
  {
    assert key in t.order(store.subjects);
  }

  /** With ticks at most `gap` apart and a base interval of at most an hour, a subject last
      checked at `checked` (or never) is checked again within an hour and one gap, whatever
      GitHub answers for it and whatever else is dispatched. */
  lemma {:induction false} RecheckedWithinAnHour(store: Store, steps: seq<Step>, key: SubjectKey, checked: int, last: int, gap: int)
    requires key in store.subjects && store.received.Some?
    requires store.subjects[key].lastChecked.None? || store.subjects[key].lastChecked.value <= checked
    requires last < checked + 3_600_000 && Regular(steps, last, gap) && Reaches(steps, checked + 3_600_000)
    ensures CheckedBy(store, steps, key, checked + 3_600_000 + gap)
    decreases |steps|
  {
    hide RunStep, Checks, ReadsAll;
    var next := RunStep(store, steps[0]).0;
    StepTouches(store, steps[0], key);
    if steps[0].Delivered? {
      DeliveryChecksNothing(store, steps[0], key);
      RecheckedWithinAnHour(next, steps[1..], key, checked, last, gap);
    } else if !Checks(store, steps[0], key) {
      NotDueYet(store, steps[0].tick, key);
      RecheckedWithinAnHour(next, steps[1..], key, checked, steps[0].tick.now, gap);
    }
  }

  lemma DeliveryChecksNothing(store: Store, step: Step, key: SubjectKey)
    requires step.Delivered?
    ensures !Checks(store, step, key)
  {
  }

  /** The state before step `n` of a run. */
  function StateAt(store: Store, steps: seq<Step>, n: nat): Store
    requires n <= |steps|
  {
    if n == 0 then store else RunStep(StateAt(store, steps, n - 1), steps[n - 1]).0
  }

  predicate ChecksAt(store: Store, steps: seq<Step>, n: nat, key: SubjectKey)
    requires n < |steps|
  {
    Checks(StateAt(store, steps, n), steps[n], key)
  }

  predicate DisturbsAt(store: Store, steps: seq<Step>, n: nat, key: SubjectKey)
    requires n < |steps|
  {
    Disturbs(StateAt(store, steps, n), steps[n], key)
  }

  /** From a check on, as long as no event about the subject is newly handled and it is not
      checked again, the record says what the check left. */
  lemma {:induction false} RecordStays(store: Store, steps: seq<Step>, key: SubjectKey, i: nat, n: nat)
    requires i < n <= |steps| && ChecksAt(store, steps, i, key)
    requires forall m | i <= m < n :: !DisturbsAt(store, steps, m, key)
    requires forall m | i < m < n :: !ChecksAt(store, steps, m, key)
    ensures var before, s := StateAt(store, steps, i), StateAt(store, steps, n);
      key in before.subjects && key in s.subjects && s.subjects[key] == before.subjects[key].(lastChecked := Some(steps[i].tick.now))
    decreases n
  {
    hide RunStep, Disturbs, IsDue;
    if n == i + 1 {
      CheckedIsListed(StateAt(store, steps, i), steps[i], key);
      StepTouches(StateAt(store, steps, i), steps[i], key);
    } else {
      RecordStays(store, steps, key, i, n - 1);
      assert !DisturbsAt(store, steps, n - 1, key) && !ChecksAt(store, steps, n - 1, key);
      StepTouches(StateAt(store, steps, n - 1), steps[n - 1], key);
    }
  }

  lemma CheckedIsListed(store: Store, step: Step, key: SubjectKey)
    requires Checks(store, step, key)
    ensures key in store.subjects && IsDue(store.subjects[key], step.tick.now, step.tick.base)
  {
  }

  /** Of any two consecutive checks of a subject in a run, with no event about it newly
      handled in between, the second comes only when its interval has passed: the base
      interval, a quarter of an hour after a day without activity, an hour after three. */
  lemma NeverCheckedEarly(store: Store, steps: seq<Step>, key: SubjectKey, i: nat, j: nat)
    requires i < j < |steps| && ChecksAt(store, steps, i, key) && ChecksAt(store, steps, j, key)
    requires forall m | i < m < j :: !ChecksAt(store, steps, m, key)
    requires forall m | i <= m < j :: !DisturbsAt(store, steps, m, key)
    ensures key in StateAt(store, steps, i).subjects
    ensures var first, second := steps[i].tick.now, steps[j].tick.now;
      var idle := second - StateAt(store, steps, i).subjects[key].lastActivity;
      second - first >= if idle >= 259_200_000 then 3_600_000 else if idle >= 86_400_000 then 900_000 else steps[j].tick.base
  {
    hide RunStep, Disturbs, Checks;
    RecordStays(store, steps, key, i, j);
    CheckedIsListed(StateAt(store, steps, j), steps[j], key);
  }

  /** Newly handling an event about a subject makes it due at once. */
  lemma ActivityMakesDue(store: Store, e: Event, h: Handling, key: SubjectKey, now: int, base: int)
    requires e.id !in store.seen && h.completes && SubjectOf(e) == Some(key)
    ensures var next := RunStep(store, Delivered(e, h)).0;
      key in next.subjects && next.subjects[key].lastActivity == e.occurredAt && IsDue(next.subjects[key], now, base)
  {
  }

  // -------------------------------------------------------- one tick at a time

  /** The timer fires, or a tick that was started ends, normally or not. */
  datatype Signal = Fires | Ends

  datatype Poller = Poller(pollRunning: bool, running: nat)

  function Signalled(p: Poller, s: Signal): Poller {
    match s
    case Fires => if p.pollRunning then p else Poller(true, p.running + 1)
    case Ends => if p.running > 0 then Poller(false, p.running - 1) else p
  }

  function SignalledAll(p: Poller, signals: seq<Signal>): Poller
    decreases |signals|
  {
    if signals == [] then p else SignalledAll(Signalled(p, signals[0]), signals[1..])
  }

  /** However long ticks take and however often the timer fires, no two ticks overlap, and
      the timer starts a tick whenever none is running. */
  lemma {:induction false} OneTickAtATime(p: Poller, signals: seq<Signal>)
    requires p.running == if p.pollRunning then 1 else 0
    ensures var after := SignalledAll(p, signals);
      && after.running == (if after.pollRunning then 1 else 0)
      && Signalled(after, Fires).running == 1
    decreases |signals|
  {
    if signals != [] {
      OneTickAtATime(Signalled(p, signals[0]), signals[1..]);
    }
  }
}
