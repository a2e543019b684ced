/** Mergeability polling and conflict rework, written twice in the program:
    resolveConflicts (src/app/commands/merge-conflict-rework.ts) and
    runMergeabilityGate (src/app/commands/execute-session-delivery.ts).

    GitHub, the worker and git answer as they like, each answer depending on all
    calls made so far. */
module ConflictRework {
  import opened Wrappers

  datatype Call = Fetch | Execute | PushBranch | MarkReady | Status | FailDelivery

  type Log = seq<Call>

  /** What a pull request snapshot says; None for `mergeable` null or undefined. */
  datatype Info = Info(mergeable: Option<bool>, dirty: bool, draft: bool)

  datatype WorkerEnd = Completed | Failed | Cancelled

  datatype Env = Env(
    fetch: Log -> Outcome<Option<Info>>, execute: Log -> Outcome<WorkerEnd>, push: Log -> Outcome<bool>,
    ready: Log -> bool, files: Log -> seq<string>, failDelivery: Log -> bool)

  datatype Run<+T> = Run(log: Log, result: Outcome<T>)

  datatype Verdict = Clean | ConflictFailed | UnknownMergeability

  datatype Resolution = Resolution(verdict: Verdict, attempts: int, files: seq<string>)

  predicate HasConflicts(info: Info) {
    info.mergeable == Some(false) || info.dirty
  }

  predicate Known(info: Option<Info>) {
    info.Some? && info.value.mergeable.Some?
  }

  /** Known, and without conflicts. */
  predicate Mergeable(info: Option<Info>) {
    Known(info) && !HasConflicts(info.value)
  }

  function PollFrom(env: Env, log: Log, answer: Outcome<Option<Info>>, attempt: int, max: int): Run<Option<Info>>
    decreases max - attempt
  {
    if answer.Threw? then Run(log, Threw)
    else if attempt < max && answer.value.Some? && answer.value.value.mergeable.None?
    then PollFrom(env, log + [Fetch], env.fetch(log), attempt + 1, max)
    else Run(log, answer)
  }

  /** pollMergeability */
  function Poll(env: Env, log: Log, max: int): Run<Option<Info>> {
    PollFrom(env, log + [Fetch], env.fetch(log), 1, max)
  }

  /** runConflictRework */
  function Rework(env: Env, log: Log): Run<bool> {
    var fetched := log + [Fetch];
    if env.fetch(log).Threw? then Run(fetched, Threw)
    else
      var worked := fetched + [Execute];
      match env.execute(fetched)
      case Threw => Run(worked, Threw)
      case Returned(Completed) => Run(worked + [PushBranch], env.push(worked))
      case Returned(_) => Run(worked, Returned(false))
  }

  /** markReadyIfDraft */
  function MarkIfDraft(env: Env, log: Log, info: Info): Run<()> {
    if !info.draft then Run(log, Returned(()))
    else Run(log + [MarkReady], if env.ready(log) then Returned(()) else Threw)
  }

  function Finished(m: Run<()>, attempts: int): Run<Resolution> {
    Run(m.log, if m.result.Threw? then Threw else Returned(Resolution(Clean, attempts, [])))
  }

  function GaveUp(env: Env, log: Log, attempts: int): Run<Resolution> {
    Run(log + [Status], Returned(Resolution(ConflictFailed, attempts, env.files(log))))
  }

  function ResolveFrom(env: Env, log: Log, polls: int, attempt: int, max: int): Run<Resolution>
    decreases max - attempt
  {
    if attempt > max then GaveUp(env, log, max)
    else
      var w := Rework(env, log);
      if w.result.Threw? then Run(w.log, Threw)
      else if !w.result.value then GaveUp(env, w.log, attempt)
      else
        var p := Poll(env, w.log, polls);
        if p.result.Threw? then Run(p.log, Threw)
        else if Mergeable(p.result.value) then Finished(MarkIfDraft(env, p.log, p.result.value.value), attempt)
        else ResolveFrom(env, p.log, polls, attempt + 1, max)
  }

  /** resolveConflicts */
  function Resolve(env: Env, log: Log, polls: int, max: int): Run<Resolution> {
    var p := Poll(env, log, polls);
    if p.result.Threw? then Run(p.log, Threw)
    else if !Known(p.result.value) then Run(p.log, Returned(Resolution(UnknownMergeability, 0, [])))
    else if !HasConflicts(p.result.value.value) then Finished(MarkIfDraft(env, p.log, p.result.value.value), 0)
    else ResolveFrom(env, p.log, polls, 1, max)
  }

  function Delivered(m: Run<()>): Run<bool> {
    Run(m.log, if m.result.Threw? then Threw else Returned(true))
  }

  /** failConflictDelivery reports, updates the session, and may itself throw. */
  function Undelivered(env: Env, log: Log): Run<bool> {
    Run(log + [FailDelivery], if env.failDelivery(log) then Returned(false) else Threw)
  }

  function GateFrom(env: Env, log: Log, polls: int, attempt: int, max: int): Run<bool>
    decreases max - attempt
  {
    if attempt > max then Undelivered(env, log + [Status])
    else
      var w := Rework(env, log);
      if w.result.Threw? then Run(w.log, Threw)
      else if !w.result.value then Undelivered(env, w.log + [Status])
      else
        var p := Poll(env, w.log, polls);
        if p.result.Threw? then Run(p.log, Threw)
        else if Mergeable(p.result.value) then Delivered(MarkIfDraft(env, p.log, p.result.value.value))
        else GateFrom(env, p.log, polls, attempt + 1, max)
  }

  /** runMergeabilityGate */
  function Gate(env: Env, log: Log, polls: int, max: int): Run<bool> {
    var p := Poll(env, log, polls);
    if p.result.Threw? then Run(p.log, Threw)
    else if !Known(p.result.value) then Undelivered(env, p.log)
    else if !HasConflicts(p.result.value.value) then Delivered(MarkIfDraft(env, p.log, p.result.value.value))
    else GateFrom(env, p.log, polls, 1, max)
  }

  // ------------------------------------------------------------- the services

  /** Both services: the environment, the two limits, and the calls made so far. */
  class ReworkService {
    const env: Env
    const polls: int
    const max: int
    var log: Log

    constructor (env: Env, polls: int, max: int)
      ensures this.env == env && this.polls == polls && this.max == max && log == []
    {
      this.env, this.polls, this.max, log := env, polls, max, [];
    }

    method GetPullRequest() returns (info: Outcome<Option<Info>>)
      modifies this
      ensures info == env.fetch(old(log)) && log == old(log) + [Fetch]
    {
      info := env.fetch(log);
      log := log + [Fetch];
    }

    method PollMergeability() returns (info: Outcome<Option<Info>>)
      modifies this
      ensures Poll(env, old(log), polls) == Run(log, info)
    {
      info := GetPullRequest();
      var attempt := 1;
      while attempt < polls && info.Returned?
        invariant PollFrom(env, log, info, attempt, polls) == Poll(env, old(log), polls)
        decreases polls - attempt, info.Returned?
      {
        if info.value.None? || info.value.value.mergeable.Some? {
          return info;
        }
        info := GetPullRequest();
        attempt := attempt + 1;
      }
    }

    method RunConflictRework() returns (pushed: Outcome<bool>)
      modifies this
      ensures Rework(env, old(log)) == Run(log, pushed)
    {
      var info := GetPullRequest();
      if info.Threw? {
        return Threw;
      }
      var worked := env.execute(log);
      log := log + [Execute];
      if worked.Threw? {
        return Threw;
      }
      if worked.value.Failed? || worked.value.Cancelled? {
        return Returned(false);
      }
      pushed := env.push(log);
      log := log + [PushBranch];
    }

    method MarkReadyIfDraft(info: Info) returns (ok: bool)
      modifies this
      ensures MarkIfDraft(env, old(log), info) == Run(log, if ok then Returned(()) else Threw)
    {
      ok := true;
      if info.draft {
        ok := env.ready(log);
        log := log + [MarkReady];
      }
    }

    method ListConflictedFiles() returns (files: seq<string>)
      modifies this
      ensures files == env.files(old(log)) && log == old(log) + [Status]
    {
      files := env.files(log);
      log := log + [Status];
    }

    method FailConflictDelivery() returns (ok: bool)
      modifies this
      ensures ok == env.failDelivery(old(log)) && log == old(log) + [FailDelivery]
    {
      ok := env.failDelivery(log);
      log := log + [FailDelivery];
    }

    method ResolveConflicts() returns (resolution: Outcome<Resolution>)
      modifies this
      ensures Resolve(env, old(log), polls, max) == Run(log, resolution)
    {
      hide Poll, Rework;
      var info := PollMergeability();
      if info.Threw? {
        return Threw;
      }
      if info.value.None? || info.value.value.mergeable.None? {
        return Returned(Resolution(UnknownMergeability, 0, []));
      }
      if !HasConflicts(info.value.value) {
        var ok := MarkReadyIfDraft(info.value.value);
        return if ok then Returned(Resolution(Clean, 0, [])) else Threw;
      }
      var attempt := 1;
      while attempt <= max
        invariant ResolveFrom(env, log, polls, attempt, max) == Resolve(env, old(log), polls, max)
      {
        var reworked := RunConflictRework();
        if reworked.Threw? {
          return Threw;
        }
        if !reworked.value {
          var files := ListConflictedFiles();
          return Returned(Resolution(ConflictFailed, attempt, files));
        }
        var recheck := PollMergeability();
        if recheck.Threw? {
          return Threw;
        }
        if recheck.value.Some? && recheck.value.value.mergeable.Some? && !HasConflicts(recheck.value.value) {
          var ok := MarkReadyIfDraft(recheck.value.value);
          return if ok then Returned(Resolution(Clean, attempt, [])) else Threw;
        }
        attempt := attempt + 1;
      }
      var files := ListConflictedFiles();
      return Returned(Resolution(ConflictFailed, max, files));
    }

    /** Returns(true) is "clean", Returns(false) is "conflict-failed". */
    method RunMergeabilityGate() returns (clean: Outcome<bool>)
      modifies this
      ensures Gate(env, old(log), polls, max) == Run(log, clean)
    {
      hide Poll, Rework;
      var info := PollMergeability();
      if info.Threw? {
        return Threw;
      }
      if info.value.None? || info.value.value.mergeable.None? {
        var told := FailConflictDelivery();
        return if told then Returned(false) else Threw;
      }
      if !HasConflicts(info.value.value) {
        var ok := MarkReadyIfDraft(info.value.value);
        return if ok then Returned(true) else Threw;
      }
      var attempt := 1;
      while attempt <= max
        invariant GateFrom(env, log, polls, attempt, max) == Gate(env, old(log), polls, max)
      {
        var reworked := RunConflictRework();
        if reworked.Threw? {
          return Threw;
        }
        if !reworked.value {
          var _ := ListConflictedFiles();
          var told := FailConflictDelivery();
          return if told then Returned(false) else Threw;
        }
        var recheck := PollMergeability();
        if recheck.Threw? {
          return Threw;
        }
        if recheck.value.Some? && recheck.value.value.mergeable.Some? && !HasConflicts(recheck.value.value) {
          var ok := MarkReadyIfDraft(recheck.value.value);
          return if ok then Returned(true) else Threw;
        }
        attempt := attempt + 1;
      }
      var _ := ListConflictedFiles();
      var told := FailConflictDelivery();
      return if told then Returned(false) else Threw;
    }
  }

  // ------------------------------------------------------------ they agree

  /** The two loops against one environment: the gate makes exactly the calls of
      resolveConflicts, then reports when it was not clean. */
  predicate SameRun(env: Env, r: Run<Resolution>, g: Run<bool>) {
    if r.result.Threw? then g == Run(r.log, Threw)
    else if r.result.value.verdict.Clean? then g == Run(r.log, Returned(true))
    else g == Undelivered(env, r.log)
  }

  lemma {:induction false} LoopsAgree(env: Env, log: Log, polls: int, attempt: int, max: int)
    ensures SameRun(env, ResolveFrom(env, log, polls, attempt, max), GateFrom(env, log, polls, attempt, max))
    decreases max - attempt
  {
    hide Poll, Rework, HasConflicts;
    if attempt <= max {
      var w := Rework(env, log);
      if w.result == Returned(true) {
        LoopsAgree(env, Poll(env, w.log, polls).log, polls, attempt + 1, max);
      }
    }
  }

  /** On every trace of answers both make the same fetch, worker, push, mark-ready and
      status calls in the same order, and succeed on the same traces. */
  lemma GateAgrees(env: Env, log: Log, polls: int, max: int)
    ensures var r := Resolve(env, log, polls, max); var g := Gate(env, log, polls, max);
      && SameRun(env, r, g)
      && (g.result == Returned(true) <==> r.result.Returned? && r.result.value.verdict.Clean?)
  {
    hide Poll, Rework;
    LoopsAgree(env, Poll(env, log, polls).log, polls, 1, max);
  }

  // ---------------------------------------------------------------- bounds

  function Max(a: int, b: int): (m: int)
    ensures m >= a && m >= b
  {
    if a > b then a else b
  }

  function Count(c: Call, log: Log): nat {
    multiset(log)[c]
  }

  lemma CountAppend(a: Log, b: Log)
    ensures forall c :: Count(c, a + b) == Count(c, a) + Count(c, b)
  {
  }

  /** `log` grew by at most this many fetches and workers, and by no mark-ready call. */
  predicate Within(before: Log, after: Log, fetches: int, workers: int) {
    && before <= after
    && Count(Fetch, after) <= Count(Fetch, before) + fetches
    && Count(Execute, after) <= Count(Execute, before) + workers
  }

  lemma {:induction false} PollFromWithin(env: Env, log: Log, answer: Outcome<Option<Info>>, attempt: int, max: int)
    requires attempt >= 1
    ensures Within(log, PollFrom(env, log, answer, attempt, max).log, Max(max - attempt, 0), 0)
    decreases max - attempt
  {
    if answer.Returned? && attempt < max && answer.value.Some? && answer.value.value.mergeable.None? {
      PollFromWithin(env, log + [Fetch], env.fetch(log), attempt + 1, max);
      CountAppend(log, [Fetch]);
    }
  }

  lemma PollWithin(env: Env, log: Log, max: int)
    ensures Within(log, Poll(env, log, max).log, Max(max, 1), 0)
  {
    PollFromWithin(env, log + [Fetch], env.fetch(log), 1, max);
    CountAppend(log, [Fetch]);
  }

  lemma ReworkWithin(env: Env, log: Log)
    ensures var w := Rework(env, log);
      && Within(log, w.log, 1, 1)
      && (w.result.Returned? ==> Count(Execute, w.log) == Count(Execute, log) + 1)
  {
    CountAppend(log, [Fetch]);
    CountAppend(log + [Fetch], [Execute]);
    CountAppend(log + [Fetch] + [Execute], [PushBranch]);
  }

  lemma {:induction false} ResolveFromWithin(env: Env, log: Log, polls: int, attempt: int, max: int)
    ensures var r := ResolveFrom(env, log, polls, attempt, max); var rounds := Max(max - attempt + 1, 0);
      && Within(log, r.log, rounds * (Max(polls, 1) + 1), rounds)
      && (r.result.Returned? && attempt <= max + 1 ==> r.result.value.attempts - attempt + 1 == Count(Execute, r.log) - Count(Execute, log))
    decreases max - attempt
  {
    hide Poll, Rework, Count, HasConflicts;
    var p := Max(polls, 1);
    if attempt > max {
      CountAppend(log, [Status]);
      StatusOnly();
    } else {
      var rounds := max - attempt + 1;
      assert rounds * (p + 1) == (p + 1) + (rounds - 1) * (p + 1);
      assert (rounds - 1) * (p + 1) >= 0;
      var w := Rework(env, log);
      ReworkWithin(env, log);
      CountAppend(w.log, [Status]);
      StatusOnly();
      if w.result == Returned(true) {
        var q := Poll(env, w.log, polls);
        PollWithin(env, w.log, polls);
        PollRunsNoWorker(env, w.log, polls);
        CountAppend(q.log, [MarkReady]);
        if q.result.Returned? && !Mergeable(q.result.value) {
          ResolveFromWithin(env, q.log, polls, attempt + 1, max);
        }
      }
    }
  }

  lemma StatusOnly()
    ensures forall c <- {Fetch, Execute} :: Count(c, [Status]) == 0 && Count(c, [MarkReady]) == 0 && Count(c, [FailDelivery]) == 0
  {
  }

  lemma PollRunsNoWorker(env: Env, log: Log, polls: int)
    ensures Count(Execute, Poll(env, log, polls).log) == Count(Execute, log)
  {
    PollWithin(env, log, polls);
    PrefixCounts(log, Poll(env, log, polls).log);
  }

  lemma PrefixCounts(a: Log, b: Log)
    requires a <= b
    ensures Count(Execute, a) <= Count(Execute, b)
  {
    assert b == a + b[|a|..];
    CountAppend(a, b[|a|..]);
  }

  /** Neither loop runs more than `max` workers or fetches more than
      (max + 1) * P + max snapshots, with P the poll cap, at least 1; the reported number
      of attempts is the number of workers run. */
  lemma BothAreBounded(env: Env, log: Log, polls: int, max: nat)
    ensures var r := Resolve(env, log, polls, max); var g := Gate(env, log, polls, max); var p := Max(polls, 1);
      && Within(log, r.log, (max + 1) * p + max, max)
      && Within(log, g.log, (max + 1) * p + max, max)
      && (r.result.Returned? ==> r.result.value.attempts == Count(Execute, r.log) - Count(Execute, log))
  {
    hide Poll, Rework, Count, HasConflicts, ResolveFrom, GateFrom;
    var p := Max(polls, 1);
    assert (max + 1) * p + max == p + max * (p + 1);
    assert max * (p + 1) >= 0;
    var q := Poll(env, log, polls);
    PollWithin(env, log, polls);
    PollRunsNoWorker(env, log, polls);
    CountAppend(q.log, [MarkReady]);
    StatusOnly();
    ResolveFromWithin(env, q.log, polls, 1, max);
    var r := Resolve(env, log, polls, max);
    GateAgrees(env, log, polls, max);
    CountAppend(r.log, [FailDelivery]);
  }

  // ---------------------------------------------------------- marking ready

  /** Every mark-ready call made since `from` directly follows a fetch whose answer was
      known, conflict-free and a draft. */
  ghost predicate ReadyAfterClean(env: Env, log: Log, from: nat) {
    forall i | from <= i < |log| && log[i] == MarkReady ::
      i > from && log[i - 1] == Fetch && IsCleanDraft(env.fetch(log[..i - 1]))
  }

  predicate IsCleanDraft(answer: Outcome<Option<Info>>) {
    answer.Returned? && Mergeable(answer.value) && answer.value.value.draft
  }

  /** The last call of `log` was a fetch, and this is what it answered. */
  predicate JustFetched(env: Env, log: Log, answer: Outcome<Option<Info>>) {
    log != [] && log[|log| - 1] == Fetch && env.fetch(log[..|log| - 1]) == answer
  }

  predicate NoneReady(log: Log, from: nat) {
    forall i | from <= i < |log| :: log[i] != MarkReady
  }

  lemma {:induction false} PollFromEnds(env: Env, log: Log, answer: Outcome<Option<Info>>, attempt: int, max: int)
    requires JustFetched(env, log, answer)
    ensures var p := PollFrom(env, log, answer, attempt, max);
      log <= p.log && JustFetched(env, p.log, p.result) && NoneReady(p.log, |log|)
    decreases max - attempt
  {
    if answer.Returned? && attempt < max && answer.value.Some? && answer.value.value.mergeable.None? {
      assert (log + [Fetch])[..|log|] == log;
      PollFromEnds(env, log + [Fetch], env.fetch(log), attempt + 1, max);
      var p := PollFrom(env, log, answer, attempt, max);
      assert p.log[|log|] == (log + [Fetch])[|log|];
    }
  }

  lemma PollEnds(env: Env, log: Log, max: int)
    ensures var p := Poll(env, log, max);
      log <= p.log && |p.log| > |log| && JustFetched(env, p.log, p.result) && NoneReady(p.log, |log|)
  {
    assert (log + [Fetch])[..|log|] == log;
    PollFromEnds(env, log + [Fetch], env.fetch(log), 1, max);
    assert Poll(env, log, max).log[|log|] == (log + [Fetch])[|log|];
  }

  lemma MarkFollows(env: Env, log: Log, info: Info, from: nat)
    requires JustFetched(env, log, Returned(Some(info))) && Mergeable(Some(info)) && |log| > from && ReadyAfterClean(env, log, from)
    ensures ReadyAfterClean(env, MarkIfDraft(env, log, info).log, from) && log <= MarkIfDraft(env, log, info).log
  {
    var after := MarkIfDraft(env, log, info).log;
    forall i | from <= i < |after| && after[i] == MarkReady
      ensures i > from && after[i - 1] == Fetch && IsCleanDraft(env.fetch(after[..i - 1]))
    {
      assert after[..i - 1] == log[..i - 1];
    }
  }

  lemma QuietSteps(env: Env, before: Log, after: Log, from: nat)
    requires from <= |before| && before <= after && ReadyAfterClean(env, before, from) && NoneReady(after, |before|)
    ensures ReadyAfterClean(env, after, from)
  {
    forall i | from <= i < |after| && after[i] == MarkReady
      ensures i > from && after[i - 1] == Fetch && IsCleanDraft(env.fetch(after[..i - 1]))
    {
      assert after[..i - 1] == before[..i - 1];
    }
  }

  lemma {:induction false} ResolveFromReady(env: Env, log: Log, polls: int, attempt: int, max: int, from: nat)
    requires from <= |log| && ReadyAfterClean(env, log, from)
    ensures ReadyAfterClean(env, ResolveFrom(env, log, polls, attempt, max).log, from)
    decreases max - attempt
  {
    hide Poll, JustFetched, ReadyAfterClean, MarkIfDraft;
    if attempt > max {
      QuietSteps(env, log, log + [Status], from);
    } else {
      var w := Rework(env, log);
      QuietSteps(env, log, w.log, from);
      QuietSteps(env, w.log, w.log + [Status], from);
      if w.result == Returned(true) {
        var q := Poll(env, w.log, polls);
        PollEnds(env, w.log, polls);
        QuietSteps(env, w.log, q.log, from);
        if q.result.Returned? {
          if Mergeable(q.result.value) {
            MarkFollows(env, q.log, q.result.value.value, from);
          } else {
            ResolveFromReady(env, q.log, polls, attempt + 1, max, from);
          }
        }
      }
    }
  }

  /** Neither loop marks a pull request ready except right after a snapshot that shows it
      a draft, with mergeability known and without conflicts. */
  lemma ReadyOnlyWhenClean(env: Env, log: Log, polls: int, max: int)
    ensures ReadyAfterClean(env, Resolve(env, log, polls, max).log, |log|)
    ensures ReadyAfterClean(env, Gate(env, log, polls, max).log, |log|)
  {
    hide Poll, JustFetched, ReadyAfterClean, MarkIfDraft, ResolveFrom, GateFrom;
    var q := Poll(env, log, polls);
    PollEnds(env, log, polls);
    QuietSteps(env, log, q.log, |log|);
    if q.result.Returned? && Known(q.result.value) {
      if HasConflicts(q.result.value.value) {
        ResolveFromReady(env, q.log, polls, 1, max, |log|);
      } else {
        MarkFollows(env, q.log, q.result.value.value, |log|);
      }
    }
    GateAgrees(env, log, polls, max);
    var r := Resolve(env, log, polls, max);
    ResolveGrows(env, log, polls, max);
    QuietSteps(env, r.log, r.log + [FailDelivery], |log|);
  }

  lemma ResolveGrows(env: Env, log: Log, polls: int, max: int)
    ensures log <= Resolve(env, log, polls, max).log
  {
    hide Poll, Rework, Count, ResolveFrom;
    PollWithin(env, log, polls);
    ResolveFromWithin(env, Poll(env, log, polls).log, polls, 1, max);
  }

  /** The last snapshot the run looked at was mergeable; at most marking ready followed. */
  predicate EndsMergeable(env: Env, log: Log) {
    var seen := if log != [] && log[|log| - 1] == MarkReady then log[..|log| - 1] else log;
    seen != [] && seen[|seen| - 1] == Fetch && IsMergeable(env.fetch(seen[..|seen| - 1]))
  }

  predicate IsMergeable(answer: Outcome<Option<Info>>) {
    answer.Returned? && answer.value.Some? && answer.value.value.mergeable == Some(true) && !answer.value.value.dirty
  }

  lemma MarkEndsMergeable(env: Env, log: Log, info: Info)
    requires JustFetched(env, log, Returned(Some(info))) && Mergeable(Some(info))
    ensures EndsMergeable(env, MarkIfDraft(env, log, info).log)
  {
    assert info.mergeable.value;
    assert (log + [MarkReady])[..|log|] == log;
  }

  lemma {:induction false} ResolveFromMergeable(env: Env, log: Log, polls: int, attempt: int, max: int)
    ensures var r := ResolveFrom(env, log, polls, attempt, max);
      r.result.Returned? && r.result.value.verdict.Clean? ==> EndsMergeable(env, r.log)
    decreases max - attempt
  {
    hide Poll, JustFetched, EndsMergeable, MarkIfDraft, Rework;
    if attempt <= max {
      var w := Rework(env, log);
      if w.result == Returned(true) {
        var q := Poll(env, w.log, polls);
        PollEnds(env, w.log, polls);
        if q.result.Returned? {
          if Mergeable(q.result.value) {
            MarkEndsMergeable(env, q.log, q.result.value.value);
          } else {
            ResolveFromMergeable(env, q.log, polls, attempt + 1, max);
          }
        }
      }
    }
  }

  /** Success means the last snapshot fetched was mergeable, after any rework. */
  lemma CleanMeansMergeable(env: Env, log: Log, polls: int, max: int)
    ensures var r := Resolve(env, log, polls, max);
      r.result.Returned? && r.result.value.verdict.Clean? ==> EndsMergeable(env, r.log)
    ensures var g := Gate(env, log, polls, max);
      g.result == Returned(true) ==> EndsMergeable(env, g.log)
  {
    hide Poll, JustFetched, EndsMergeable, MarkIfDraft, ResolveFrom, GateFrom;
    var q := Poll(env, log, polls);
    PollEnds(env, log, polls);
    if q.result.Returned? && Known(q.result.value) {
      if HasConflicts(q.result.value.value) {
        ResolveFromMergeable(env, q.log, polls, 1, max);
      } else {
        MarkEndsMergeable(env, q.log, q.result.value.value);
      }
    }
    GateAgrees(env, log, polls, max);
  }
}
