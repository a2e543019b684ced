/** When recovering and creating a pull request succeed, find nothing, or throw. */
module RecoveryTrace {
  import opened PrRecovery
  import opened Wrappers

  /** The call at `k` was rejected. */
  predicate Rejected(env: Env, log: Log, k: nat)
    requires k < |log|
  {
    match log[k]
    case List => env.list(log[..k]).Threw?
    case Get(number) => env.get(log[..k], number).Threw?
    case Create => env.create(log[..k]).Threw?
    case Clear => !env.ok(log[..k])
    case Associate(_) => !env.ok(log[..k])
  }

  /** Nothing is called after a rejection. */
  predicate StopsThere<T>(env: Env, log: Log, from: nat, result: Outcome<T>) {
    && from < |log| && (forall k | from <= k < |log| - 1 :: !Rejected(env, log, k))
    && (result.Threw? <==> Rejected(env, log, |log| - 1))
  }

  lemma OneCall(env: Env, log: Log, c: Call, k: nat)
    requires k <= |log|
    ensures (log + [c])[..k] == log[..k] && (k < |log| ==> (Rejected(env, log + [c], k) <==> Rejected(env, log, k)))
  {
  }

  lemma {:induction false} ValidStops(env: Env, log: Log, issue: int, associated: Option<int>, base: string, candidates: seq<Pr>, from: nat)
    requires from < |log| && forall k | from <= k < |log| :: !Rejected(env, log, k)
    ensures var v := ValidFrom(env, log, issue, associated, base, candidates); StopsThere(env, v.log, from, v.result)
    decreases |candidates|
  {
    hide Validate;
    if candidates != [] {
      var get := Get(candidates[0].number);
      var next := log + [get];
      forall k | from <= k < |log|
        ensures !Rejected(env, next, k)
      {
        OneCall(env, log, get, k);
      }
      OneCall(env, log, get, |log|);
      if env.get(log, candidates[0].number).Returned? {
        ValidStops(env, next, issue, associated, base, candidates[1..], from);
      }
    }
  }

  lemma DiscoverStops(env: Env, log: Log, issue: int, base: string, from: nat)
    requires from <= |log| && forall k | from <= k < |log| :: !Rejected(env, log, k)
    ensures var d := Discover(env, log, issue, None, base); StopsThere(env, d.log, from, d.result)
  {
    hide ValidFrom;
    var next := log + [List];
    forall k | from <= k < |log|
      ensures !Rejected(env, next, k)
    {
      OneCall(env, log, List, k);
    }
    OneCall(env, log, List, |log|);
    if env.list(log).Returned? {
      ValidStops(env, next, issue, None, base, env.list(log).value, from);
    }
  }

  lemma ByDiscoveryStops(env: Env, stored: Association, log: Log, issue: int, base: string, from: nat)
    requires from <= |log| && forall k | from <= k < |log| :: !Rejected(env, log, k)
    ensures var r := RecoverByDiscovery(env, stored, log, issue, base); StopsThere(env, r.log, from, r.result)
  {
    hide Discover;
    DiscoverStops(env, log, issue, base, from);
    var d := Discover(env, log, issue, None, base);
    if d.result.Returned? && d.result.value.Found? {
      var c := Associate(d.result.value.pr);
      forall k | from <= k < |d.log|
        ensures !Rejected(env, d.log + [c], k)
      {
        OneCall(env, d.log, c, k);
      }
      OneCall(env, d.log, c, |d.log|);
    }
  }

  /** Recovery throws exactly when its last call was rejected, and makes none after that. */
  lemma RecoveryStopsAtARejection(env: Env, stored: Association, log: Log, issue: int, base: string)
    ensures var r := Recover(env, stored, log, issue, base); StopsThere(env, r.log, |log|, r.result)
  {
    hide RecoverByDiscovery, Validate;
    if stored.number.None? {
      ByDiscoveryStops(env, stored, log, issue, base, |log|);
    } else {
      var got := log + [Get(stored.number.value)];
      OneCall(env, log, Get(stored.number.value), |log|);
      OneCall(env, got, Clear, |log|);
      OneCall(env, got, Clear, |got|);
      if env.get(log, stored.number.value).Returned? && env.ok(got) {
        ByDiscoveryStops(env, NONE, got + [Clear], issue, base, |log|);
      }
    }
  }

  /** The associated pull request still matches. */
  predicate StillMatches(env: Env, stored: Association, log: Log, issue: int, base: string) {
    stored.number.Some? && AnswersMatching(env, log, stored.number.value, issue, base)
  }

  /** The calls before the search: none, or the look at the associated pull request and the
      clearing of the association. */
  function BeforeSearch(stored: Association, log: Log): Log {
    if stored.number.None? then log else log + [Get(stored.number.value), Clear]
  }

  /** The last call stores the association. */
  predicate StoresAtTheEnd(log: Log, pr: Pr) {
    log != [] && log[|log| - 1] == Associate(pr)
  }

  /** What a recovery that does not throw comes back with: the associated pull request exactly
      when it still matches, and else the only listed one that does, or a refusal when there
      is not exactly one. */
  lemma RecoversExactly(env: Env, stored: Association, log: Log, issue: int, base: string, pr: Pr)
    requires Recover(env, stored, log, issue, base).result.Returned?
    ensures var recovery := Recover(env, stored, log, issue, base).result.value; var before := BeforeSearch(stored, log);
      && (recovery == Recovered(pr, Preserved) <==>
            StillMatches(env, stored, log, issue, base)
            && pr == Pr(stored.number.value, if stored.url.Some? then stored.url.value else ""))
      && (recovery == Recovered(pr, Discovered) <==>
            !StillMatches(env, stored, log, issue, base) && env.list(before).Returned?
            && OnlyTrusted(env, before + [List], issue, None, base, env.list(before).value, 0, pr))
      && (recovery == Recovered(pr, Discovered) ==> StoresAtTheEnd(Recover(env, stored, log, issue, base).log, pr))
  {
    hide Discover, OnlyTrusted, Validate, Matches, RecoverByDiscovery;
    var before := BeforeSearch(stored, log);
    if stored.number.Some? {
      var answer := env.get(log, stored.number.value);
      if answer.Returned? && answer.value.Some? {
        ValidationMeansMatching(issue, stored.number, stored.number.value, answer.value.value, base);
      }
      assert log + [Get(stored.number.value)] + [Clear] == before;
      if !StillMatches(env, stored, log, issue, base) {
        SearchFinds(env, NONE, before, issue, base, pr);
      }
    } else {
      SearchFinds(env, stored, before, issue, base, pr);
    }
  }

  lemma SearchFinds(env: Env, stored: Association, log: Log, issue: int, base: string, pr: Pr)
    requires RecoverByDiscovery(env, stored, log, issue, base).result.Returned?
    ensures var recovery := RecoverByDiscovery(env, stored, log, issue, base).result.value;
      && (recovery.Recovered? ==> recovery.source.Discovered?)
      && env.list(log).Returned?
      && (recovery == Recovered(pr, Discovered) ==> StoresAtTheEnd(RecoverByDiscovery(env, stored, log, issue, base).log, pr))
      && (recovery == Recovered(pr, Discovered) <==> OnlyTrusted(env, log + [List], issue, None, base, env.list(log).value, 0, pr))
  {
    hide ValidFrom, OnlyTrusted;
    DiscoveryNeverGuesses(env, log, issue, None, base, pr);
  }

  /** How creation ends: with the pull request GitHub created and the session stored; without
      changes when GitHub created none; and otherwise as the search for an existing one says,
      which is stored, while a creation that failed for want of commits changes nothing. */
  lemma CreatesExactly(env: Env, stored: Association, log: Log, issue: int, base: string)
    ensures var r := CreatePr(env, stored, log, issue, base); var answer := env.create(log);
      var made := answer.Returned? && answer.value.Some?;
      var before := if made then log + [Create, Associate(answer.value.value)] else log + [Create];
      var search := FindExisting(env, before, BranchOf(issue), base);
      && (answer == Returned(None) ==> r.result == Returned(NoChanges) && r.log == log + [Create])
      && (made && env.ok(log + [Create]) ==> r.result == Returned(Created(answer.value.value)) && r.log == before)
      && (answer.Threw? || (made && !env.ok(log + [Create])) ==>
            && (search.result.Threw? ==> r.result == Threw && r.log == search.log)
            && (search.result == Returned(None) ==> r.result == (if env.noCommits then Returned(NoChanges) else Threw) && r.log == search.log)
            && (search.result.Returned? && search.result.value.Some? ==>
                  && r.log == search.log + [Associate(search.result.value.value)]
                  && r.result == if Rejected(env, r.log, |search.log|) then Threw else Returned(Existed(search.result.value.value))))
  {
    hide FindExisting, BranchOf;
    var answer := env.create(log);
    if answer.Returned? && answer.value.Some? {
      assert log + [Create] + [Associate(answer.value.value)] == log + [Create, Associate(answer.value.value)];
    }
    var before := if answer.Returned? && answer.value.Some? then log + [Create, Associate(answer.value.value)] else log + [Create];
    var search := FindExisting(env, before, BranchOf(issue), base);
    if search.result.Returned? && search.result.value.Some? {
      OneCall(env, search.log, Associate(search.result.value.value), |search.log|);
    }
  }
}
