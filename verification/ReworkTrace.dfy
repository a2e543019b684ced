/** The script both conflict loops keep to: after every call, what its answer allows to come
    next, and what the last call says about the outcome. */
module ReworkTrace {
  import opened ConflictRework
  import opened Wrappers

  /** The call at `k` was rejected. */
  predicate Rejected(env: Env, log: Log, k: nat)
    requires k < |log|
  {
    match log[k]
    case Fetch => env.fetch(log[..k]).Threw?
    case Execute => env.execute(log[..k]).Threw?
    case PushBranch => env.push(log[..k]).Threw?
    case MarkReady => !env.ready(log[..k])
    case Status => false
    case FailDelivery => !env.failDelivery(log[..k])
  }

  predicate Next(log: Log, k: nat, c: Call) {
    k + 1 < |log| && log[k + 1] == c
  }

  predicate Last(log: Log, k: nat) {
    k + 1 == |log|
  }

  predicate After(log: Log, k: nat, c: Call) {
    0 < k < |log| && log[k - 1] == c
  }

  /** What call `k` may follow, and what follows it: a worker starts after a fetch that
      answered, its branch is pushed exactly when it completed, a push that went through is
      followed by another look, and everything else that fails by the list of conflicted
      files; no further round follows a mergeable snapshot and nothing a rejection. */
  predicate InScript(env: Env, log: Log, k: nat)
    requires k < |log|
  {
    if Rejected(env, log, k) then Last(log, k)
    else
      match log[k]
      case Fetch => IsMergeable(env.fetch(log[..k])) ==> !Next(log, k, Fetch) && !Next(log, k, Status)
      case Execute =>
        After(log, k, Fetch) && Next(log, k, if env.execute(log[..k]) == Returned(Completed) then PushBranch else Status)
      case PushBranch =>
        After(log, k, Execute) && Next(log, k, if env.push(log[..k]) == Returned(true) then Fetch else Status)
      case MarkReady => After(log, k, Fetch) && Last(log, k)
      case Status => Last(log, k)
      case FailDelivery => false
  }

  /** All calls since `from` but the last keep to the script. */
  predicate Scripted(env: Env, log: Log, from: nat) {
    from <= |log| && forall k | from <= k < |log| - 1 :: InScript(env, log, k)
  }

  /** The call just made leaves room for `c`. */
  predicate Leads(env: Env, log: Log, from: nat, c: Call) {
    |log| > from ==> InScript(env, log + [c], |log| - 1)
  }

  lemma OneMoreCall(env: Env, log: Log, from: nat, c: Call)
    requires Scripted(env, log, from) && Leads(env, log, from, c)
    ensures Scripted(env, log + [c], from)
  {
    forall k | from <= k < |log + [c]| - 1
      ensures InScript(env, log + [c], k)
    {
      if k < |log| - 1 {
        assert InScript(env, log, k);
        assert (log + [c])[..k] == log[..k];
      }
    }
  }

  /** The last call was a fetch that answered. */
  predicate Looked(env: Env, log: Log) {
    log != [] && log[|log| - 1] == Fetch && env.fetch(log[..|log| - 1]).Returned?
  }

  /** The last snapshot was not mergeable. */
  predicate Inconclusive(env: Env, log: Log) {
    log != [] && !IsMergeable(env.fetch(log[..|log| - 1]))
  }

  lemma LookedLeads(env: Env, log: Log, from: nat, c: Call)
    requires Looked(env, log) && (c == Fetch || c == Status ==> Inconclusive(env, log))
    ensures Leads(env, log, from, c)
  {
    assert (log + [c])[..|log| - 1] == log[..|log| - 1];
  }

  // ------------------------------------------------------------------ polling

  lemma {:induction false} PollFromScripted(env: Env, log: Log, answer: Outcome<Option<Info>>, attempt: int, max: int, from: nat)
    requires Scripted(env, log, from) && JustFetched(env, log, answer)
    ensures var p := PollFrom(env, log, answer, attempt, max);
      Scripted(env, p.log, from) && |p.log| >= |log| && JustFetched(env, p.log, p.result)
    decreases max - attempt
  {
    if answer.Returned? && attempt < max && answer.value.Some? && answer.value.value.mergeable.None? {
      LookedLeads(env, log, from, Fetch);
      OneMoreCall(env, log, from, Fetch);
      assert (log + [Fetch])[..|log|] == log;
      PollFromScripted(env, log + [Fetch], env.fetch(log), attempt + 1, max, from);
    }
  }

  lemma PollScripted(env: Env, log: Log, max: int, from: nat)
    requires Scripted(env, log, from) && Leads(env, log, from, Fetch)
    ensures var p := Poll(env, log, max);
      Scripted(env, p.log, from) && |p.log| > |log| && JustFetched(env, p.log, p.result)
  {
    OneMoreCall(env, log, from, Fetch);
    assert (log + [Fetch])[..|log|] == log;
    PollFromScripted(env, log + [Fetch], env.fetch(log), 1, max, from);
  }

  // ------------------------------------------------------------------ rework

  /** One round of work: where it ends and what it says. */
  lemma ReworkScripted(env: Env, log: Log, from: nat)
    requires Scripted(env, log, from) && Looked(env, log) && Inconclusive(env, log) && |log| > from
    ensures var w := Rework(env, log);
      && Scripted(env, w.log, from) && |w.log| > |log|
      && (w.result.Threw? <==> Rejected(env, w.log, |w.log| - 1))
      && (w.result == Returned(true) ==> Leads(env, w.log, from, Fetch))
      && (w.result == Returned(false) ==> Leads(env, w.log, from, Status))
  {
    var fetched := log + [Fetch];
    LookedLeads(env, log, from, Fetch);
    OneMoreCall(env, log, from, Fetch);
    assert fetched[..|log|] == log;
    if env.fetch(log).Returned? {
      var worked := fetched + [Execute];
      LookedLeads(env, fetched, from, Execute);
      OneMoreCall(env, fetched, from, Execute);
      assert worked[..|fetched|] == fetched;
      if env.execute(fetched) == Returned(Completed) {
        assert (worked + [PushBranch])[..|fetched|] == fetched;
        OneMoreCall(env, worked, from, PushBranch);
        var pushed := worked + [PushBranch];
        assert pushed[..|worked|] == worked;
        assert (pushed + [Fetch])[..|worked|] == worked && (pushed + [Status])[..|worked|] == worked;
      } else {
        assert (worked + [Status])[..|fetched|] == fetched;
      }
    }
  }

  // ------------------------------------------------------------- the outcomes

  /** How a run of resolveConflicts ends: it throws exactly when its last call is rejected,
      gives up exactly on a status call, whose files it reports, and otherwise its last look
      was conclusive. */
  predicate EndsRight(env: Env, r: Run<Resolution>) {
    && r.log != []
    && (r.result.Threw? <==> Rejected(env, r.log, |r.log| - 1))
    && (r.result.Returned? ==>
          && (r.result.value.verdict.ConflictFailed? <==> r.log[|r.log| - 1] == Status)
          && (r.result.value.files == if r.result.value.verdict.ConflictFailed? then env.files(r.log[..|r.log| - 1]) else [])
          && (r.result.value.verdict.Clean? && r.log[|r.log| - 1] == Fetch ==> ShowsNoDraft(env.fetch(r.log[..|r.log| - 1]))))
  }

  predicate ShowsNoDraft(answer: Outcome<Option<Info>>) {
    answer.Returned? && answer.value.Some? && !answer.value.value.draft
  }

  /** The whole run keeps to the script and ends as its last call says. */
  predicate Plays(env: Env, r: Run<Resolution>, from: nat) {
    Scripted(env, r.log, from) && |r.log| > from && EndsRight(env, r) && InScript(env, r.log, |r.log| - 1)
  }

  lemma GivingUp(env: Env, log: Log, attempts: int, from: nat)
    requires Scripted(env, log, from) && Leads(env, log, from, Status)
    ensures Plays(env, GaveUp(env, log, attempts), from)
  {
    OneMoreCall(env, log, from, Status);
    assert (log + [Status])[..|log|] == log;
  }

  lemma Marking(env: Env, log: Log, info: Info, attempts: int, from: nat)
    requires Scripted(env, log, from) && |log| > from && JustFetched(env, log, Returned(Some(info)))
    ensures Plays(env, Finished(MarkIfDraft(env, log, info), attempts), from)
  {
    if info.draft {
      LookedLeads(env, log, from, MarkReady);
      OneMoreCall(env, log, from, MarkReady);
      assert (log + [MarkReady])[..|log|] == log;
    }
  }

  lemma {:induction false} ResolveFromPlays(env: Env, log: Log, polls: int, attempt: int, max: int, from: nat)
    requires Scripted(env, log, from) && Looked(env, log) && Inconclusive(env, log) && |log| > from
    ensures Plays(env, ResolveFrom(env, log, polls, attempt, max), from)
    decreases max - attempt
  {
    hide Poll, Rework, Scripted, Leads, InScript, Plays, MarkIfDraft, Rejected;
    if attempt > max {
      LookedLeads(env, log, from, Status);
      GivingUp(env, log, max, from);
    } else {
      var w := Rework(env, log);
      ReworkScripted(env, log, from);
      if w.result.Threw? {
        ThrowingPlays(env, w.log, from);
      } else if !w.result.value {
        GivingUp(env, w.log, attempt, from);
      } else {
        var p := Poll(env, w.log, polls);
        PollScripted(env, w.log, polls, from);
        if p.result.Threw? {
          ThrowingFetch(env, p.log);
          ThrowingPlays(env, p.log, from);
        } else if Mergeable(p.result.value) {
          Marking(env, p.log, p.result.value.value, attempt, from);
        } else {
          ResolveFromPlays(env, p.log, polls, attempt + 1, max, from);
        }
      }
    }
  }

  lemma ThrowingPlays(env: Env, log: Log, from: nat)
    requires Scripted(env, log, from) && |log| > from && Rejected(env, log, |log| - 1)
    ensures Plays(env, Run(log, Threw), from)
  {
  }

  lemma ThrowingFetch(env: Env, log: Log)
    requires JustFetched(env, log, Threw)
    ensures Rejected(env, log, |log| - 1)
  {
  }

  /** On every trace of answers resolveConflicts keeps to the script from its first call to
      its last and ends as that says. */
  lemma ResolveKeepsToTheScript(env: Env, log: Log, polls: int, max: int)
    ensures Plays(env, Resolve(env, log, polls, max), |log|)
  {
    hide Rework, Scripted, InScript, Plays, MarkIfDraft, Rejected, ResolveFrom;
    NothingYet(env, log);
    var p := Poll(env, log, polls);
    PollScripted(env, log, polls, |log|);
    if p.result.Threw? {
      ThrowingFetch(env, p.log);
      ThrowingPlays(env, p.log, |log|);
    } else if !Known(p.result.value) {
      LookingPlays(env, p.log, |log|);
    } else if !HasConflicts(p.result.value.value) {
      Marking(env, p.log, p.result.value.value, 0, |log|);
    } else {
      ResolveFromPlays(env, p.log, polls, 1, max, |log|);
    }
  }

  lemma NothingYet(env: Env, log: Log)
    ensures Scripted(env, log, |log|)
  {
  }

  lemma LookingPlays(env: Env, log: Log, from: nat)
    requires Scripted(env, log, from) && |log| > from && Looked(env, log)
    ensures Plays(env, Run(log, Returned(Resolution(UnknownMergeability, 0, []))), from)
  {
  }

  /** The gate keeps to the same script, and when it is not clean it says so by one last call,
      which alone may then reject. */
  lemma GateKeepsToTheScript(env: Env, log: Log, polls: int, max: int)
    ensures var r := Resolve(env, log, polls, max); var g := Gate(env, log, polls, max);
      var reports := r.result.Returned? && !r.result.value.verdict.Clean?;
      && g.log == (if reports then r.log + [FailDelivery] else r.log)
      && g.log != [] && (g.result.Threw? <==> Rejected(env, g.log, |g.log| - 1))
      && (g.result.Returned? ==> (g.result.value <==> !reports))
  {
    hide Resolve, Gate, InScript, Scripted;
    GateAgrees(env, log, polls, max);
    ResolveKeepsToTheScript(env, log, polls, max);
    var r := Resolve(env, log, polls, max);
    assert (r.log + [FailDelivery])[..|r.log|] == r.log;
  }

  // ------------------------------------------------------------ how long it lasts

  predicate ShowsNothing(answer: Outcome<Option<Info>>) {
    answer.Returned? && answer.value.Some? && answer.value.value.mergeable.None?
  }

  /** From `from` on the log holds looks alone, each but the last of which showed nothing. */
  predicate OnlyLooks(env: Env, log: Log, from: nat) {
    && (forall k | from <= k < |log| :: log[k] == Fetch)
    && (forall k | from <= k < |log| - 1 :: ShowsNothing(env.fetch(log[..k])))
  }

  lemma {:induction false} PollFromLooks(env: Env, log: Log, answer: Outcome<Option<Info>>, attempt: int, max: int, from: nat)
    requires from < |log| && OnlyLooks(env, log, from) && JustFetched(env, log, answer)
    ensures var p := PollFrom(env, log, answer, attempt, max);
      && log <= p.log && OnlyLooks(env, p.log, from) && JustFetched(env, p.log, p.result)
      && attempt + |p.log| - |log| <= Max(attempt, max)
      && (attempt + |p.log| - |log| >= max || !ShowsNothing(p.result))
    decreases max - attempt
  {
    if ShowsNothing(answer) && attempt < max {
      var more := log + [Fetch];
      assert more[..|log|] == log;
      forall k | from <= k < |more| - 1
        ensures ShowsNothing(env.fetch(more[..k]))
      {
        assert more[..k] == log[..k];
      }
      PollFromLooks(env, more, env.fetch(log), attempt + 1, max, from);
    }
  }

  /** Polling looks again exactly while a pull request is there whose mergeability is not
      known, at most `max` times, or once. */
  lemma PollLooksUntilKnown(env: Env, log: Log, max: int)
    ensures var p := Poll(env, log, max); var looks := |p.log| - |log|;
      && log <= p.log && OnlyLooks(env, p.log, |log|) && JustFetched(env, p.log, p.result)
      && 1 <= looks <= Max(1, max) && (looks == Max(1, max) || !ShowsNothing(p.result))
  {
    assert (log + [Fetch])[..|log|] == log;
    PollFromLooks(env, log + [Fetch], env.fetch(log), 1, max, |log|);
  }
}
