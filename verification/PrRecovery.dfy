/** Finding the pull request of an issue again, written twice in the program:
    PRRecovery (src/app/commands/pr-recovery.ts), and createPR with findExistingPR
    (src/app/commands/execute-session-delivery.ts). */
module PrRecovery {
  import opened Numbers
  import opened Wrappers

  datatype Pr = Pr(number: int, url: string)

  /** A pull request snapshot; `base` is None when the answer carries none. */
  datatype Info = Info(head: string, base: Option<string>, state: string, merged: bool)

  datatype Call = List | Get(number: int) | Clear | Associate(pr: Pr) | Create

  type Log = seq<Call>

  /** GitHub and the session store answer as they like, knowing all calls made so far.
      `ok` says whether a session update succeeds; `noCommits` whether the error of the
      creation says that there is nothing to merge. */
  datatype Env = Env(
    list: Log -> Outcome<seq<Pr>>, get: (Log, int) -> Outcome<Option<Info>>, ok: Log -> bool,
    create: Log -> Outcome<Option<Pr>>, noCommits: bool)

  datatype Refusal = WrongHead | WrongBase | NotOpen | AlreadyMerged | OtherPr

  /** expectedBranchForIssue */
  function BranchOf(issue: int): string {
    "yolomatic/issue-" + IntText(issue)
  }

  /** validateRecoveryCandidate; None when the pull request can be trusted. */
  function Validate(issue: int, associated: Option<int>, number: int, pr: Info, base: string): Option<Refusal> {
    if pr.head != BranchOf(issue) then Some(WrongHead)
    else if (if pr.base.Some? then pr.base.value else "") != base then Some(WrongBase)
    else if pr.state != "open" then Some(NotOpen)
    else if pr.merged then Some(AlreadyMerged)
    else if associated.Some? && associated.value != number then Some(OtherPr)
    else None
  }

  /** The snapshot has the issue's branch, the base, and is open and unmerged. */
  predicate Matches(issue: int, pr: Info, base: string) {
    && pr.head == "yolomatic/issue-" + IntText(issue) && (if pr.base.Some? then pr.base.value else "") == base
    && pr.state == "open" && !pr.merged
  }

  lemma ValidationMeansMatching(issue: int, associated: Option<int>, number: int, pr: Info, base: string)
    ensures Validate(issue, associated, number, pr, base).None? <==>
      Matches(issue, pr, base) && (associated.Some? ==> associated.value == number)
    ensures Validate(issue, associated, number, pr, base) == Some(OtherPr) <==>
      Matches(issue, pr, base) && associated.Some? && associated.value != number
    ensures Validate(issue, associated, number, pr, base) == Some(AlreadyMerged) <==>
      pr.merged && Matches(issue, pr.(merged := false), base)
    ensures Validate(issue, associated, number, pr, base) == Some(NotOpen) <==>
      pr.state != "open" && Matches(issue, pr.(state := "open", merged := false), base)
  {
  }

  // ---------------------------------------------------------------- discovery

  datatype Discovery = Found(pr: Pr) | Nothing | Ambiguous(count: nat)

  datatype Run<+T> = Run(log: Log, result: Outcome<T>)

  /** What the loop of `discover` appends to `valid`. */
  function ValidFrom(env: Env, log: Log, issue: int, associated: Option<int>, base: string, candidates: seq<Pr>): Run<seq<Pr>>
    decreases |candidates|
  {
    if candidates == [] then Run(log, Returned([]))
    else
      var c := candidates[0];
      var answer := env.get(log, c.number);
      if answer.Threw? then Run(log + [Get(c.number)], Threw)
      else
        var rest := ValidFrom(env, log + [Get(c.number)], issue, associated, base, candidates[1..]);
        var valid := answer.value.Some? && Validate(issue, associated, c.number, answer.value.value, base).None?;
        Run(rest.log, if rest.result.Threw? then Threw else Returned((if valid then [c] else []) + rest.result.value))
  }

  function Discover(env: Env, log: Log, issue: int, associated: Option<int>, base: string): Run<Discovery> {
    var listed := env.list(log);
    if listed.Threw? then Run(log + [List], Threw)
    else
      var v := ValidFrom(env, log + [List], issue, associated, base, listed.value);
      Run(v.log,
          if v.result.Threw? then Threw
          else if |v.result.value| == 1 then Returned(Found(v.result.value[0]))
          else if v.result.value == [] then Returned(Nothing)
          else Returned(Ambiguous(|v.result.value|)))
  }

  /** What the loop of `findExistingPR` appends to `valid`. */
  function ExistingFrom(env: Env, log: Log, head: string, base: string, candidates: seq<Pr>): Run<seq<Pr>>
    decreases |candidates|
  {
    if candidates == [] then Run(log, Returned([]))
    else
      var c := candidates[0];
      var answer := env.get(log, c.number);
      if answer.Threw? then Run(log + [Get(c.number)], Threw)
      else
        var rest := ExistingFrom(env, log + [Get(c.number)], head, base, candidates[1..]);
        var valid := answer.value.Some? && IsExisting(answer.value.value, head, base);
        Run(rest.log, if rest.result.Threw? then Threw else Returned((if valid then [c] else []) + rest.result.value))
  }

  predicate IsExisting(pr: Info, head: string, base: string) {
    pr.head == head && pr.base == Some(base) && pr.state == "open" && !pr.merged
  }

  function FindExisting(env: Env, log: Log, head: string, base: string): Run<Option<Pr>> {
    var listed := env.list(log);
    if listed.Threw? then Run(log + [List], Threw)
    else
      var v := ExistingFrom(env, log + [List], head, base, listed.value);
      Run(v.log,
          if v.result.Threw? then Threw
          else if |v.result.value| == 1 then Returned(Some(v.result.value[0]))
          else Returned(None))
  }

  /** Both searches make the same calls, and one finds what the other finds. */
  ghost predicate SameSearch(d: Run<Discovery>, f: Run<Option<Pr>>) {
    && d.log == f.log && d.result.Threw? == f.result.Threw?
    && (d.result.Returned? ==> (forall pr :: d.result.value == Found(pr) <==> f.result.value == Some(pr)))
  }

  lemma {:induction false} LoopsAgree(env: Env, log: Log, issue: int, base: string, candidates: seq<Pr>)
    requires base != ""
    ensures ValidFrom(env, log, issue, None, base, candidates) == ExistingFrom(env, log, BranchOf(issue), base, candidates)
    decreases |candidates|
  {
    hide BranchOf;
    if candidates != [] {
      LoopsAgree(env, log + [Get(candidates[0].number)], issue, base, candidates[1..]);
    }
  }

  /** A listing with one candidate whose snapshot carries no base. */
  function BaselessEnv(issue: int): Env {
    Env(log => Returned([Pr(1, "")]), (log, number) => Returned(Some(Info(BranchOf(issue), None, "open", false))),
        log => true, log => Threw, false)
  }

  /** The two searches agree on every trace of answers exactly when the base is not empty:
      only `discover` takes a snapshot without a base for one with an empty base. */
  lemma SearchesAgreeExactlyWithABase(issue: int, base: string)
    ensures base != "" <==>
      forall env, log :: SameSearch(Discover(env, log, issue, None, base), FindExisting(env, log, BranchOf(issue), base))
  {
    hide BranchOf;
    if base != "" {
      forall env, log
        ensures SameSearch(Discover(env, log, issue, None, base), FindExisting(env, log, BranchOf(issue), base))
      {
        if env.list(log).Returned? {
          LoopsAgree(env, log + [List], issue, base, env.list(log).value);
        }
      }
    } else {
      var env, none := BaselessEnv(issue), [];
      var one := [Pr(1, "")];
      var rest: seq<Pr> := one[1..];
      assert rest == [];
      assert ValidFrom(env, none + [List], issue, None, base, one).result.value == one;
      assert ExistingFrom(env, none + [List], BranchOf(issue), base, one).result.value == [];
      assert Discover(env, none, issue, None, base).result.value == Found(Pr(1, ""));
      assert !SameSearch(Discover(env, none, issue, None, base), FindExisting(env, none, BranchOf(issue), base));
    }
  }

  /** Candidate `i` of a listing made at `log` was fetched when the ones before it had been,
      and this is what came back. */
  function Fetched(log: Log, candidates: seq<Pr>, i: nat): Log
    requires i <= |candidates|
    decreases i
  {
    if i == 0 then log else Fetched(log + [Get(candidates[0].number)], candidates[1..], i - 1)
  }

  predicate Trusted(env: Env, log: Log, issue: int, associated: Option<int>, base: string, candidates: seq<Pr>, i: nat)
    requires i < |candidates|
  {
    var answer := env.get(Fetched(log, candidates, i), candidates[i].number);
    answer.Returned? && answer.value.Some? && Validate(issue, associated, candidates[i].number, answer.value.value, base).None?
  }

  /** `valid` holds exactly the trusted candidates, in the order listed. */
  function TrustedOnly(env: Env, log: Log, issue: int, associated: Option<int>, base: string, candidates: seq<Pr>, i: nat): seq<Pr>
    requires i <= |candidates|
    decreases |candidates| - i
  {
    if i == |candidates| then []
    else
      var rest := TrustedOnly(env, log, issue, associated, base, candidates, i + 1);
      if Trusted(env, log, issue, associated, base, candidates, i) then [candidates[i]] + rest else rest
  }

  lemma {:induction false} TrustedShift(env: Env, log: Log, issue: int, associated: Option<int>, base: string, candidates: seq<Pr>, i: nat)
    requires 1 <= i <= |candidates|
    ensures TrustedOnly(env, log, issue, associated, base, candidates, i) ==
      TrustedOnly(env, log + [Get(candidates[0].number)], issue, associated, base, candidates[1..], i - 1)
    decreases |candidates| - i
  {
    hide Validate;
    if i < |candidates| {
      TrustedShift(env, log, issue, associated, base, candidates, i + 1);
    }
  }

  lemma {:induction false} ValidIsTrusted(env: Env, log: Log, issue: int, associated: Option<int>, base: string, candidates: seq<Pr>)
    ensures var v := ValidFrom(env, log, issue, associated, base, candidates);
      v.result.Returned? ==> v.result.value == TrustedOnly(env, log, issue, associated, base, candidates, 0)
    decreases |candidates|
  {
    hide Validate;
    if candidates != [] {
      ValidIsTrusted(env, log + [Get(candidates[0].number)], issue, associated, base, candidates[1..]);
      TrustedShift(env, log, issue, associated, base, candidates, 1);
    }
  }

  lemma {:induction false} OneTrusted(env: Env, log: Log, issue: int, associated: Option<int>, base: string, candidates: seq<Pr>, i: nat, pr: Pr)
    requires i <= |candidates|
    ensures var all := TrustedOnly(env, log, issue, associated, base, candidates, i);
      && (all == [] <==> forall k | i <= k < |candidates| :: !Trusted(env, log, issue, associated, base, candidates, k))
      && (all == [pr] <==> OnlyTrusted(env, log, issue, associated, base, candidates, i, pr))
    decreases |candidates| - i
  {
    hide Trusted;
    if i < |candidates| {
      OneTrusted(env, log, issue, associated, base, candidates, i + 1, pr);
      var rest := TrustedOnly(env, log, issue, associated, base, candidates, i + 1);
      if Trusted(env, log, issue, associated, base, candidates, i) {
        var all := [candidates[i]] + rest;
        assert |all| == 1 + |rest| && all[0] == candidates[i];
        if all == [pr] {
          assert rest == [];
          assert OnlyAt(env, log, issue, associated, base, candidates, i, pr, i);
        }
        if OnlyTrusted(env, log, issue, associated, base, candidates, i, pr) {
          var k :| i <= k < |candidates| && OnlyAt(env, log, issue, associated, base, candidates, i, pr, k);
          assert k == i && rest == [] && all == [pr];
        }
      } else {
        if OnlyTrusted(env, log, issue, associated, base, candidates, i, pr) {
          var k :| i <= k < |candidates| && OnlyAt(env, log, issue, associated, base, candidates, i, pr, k);
          assert OnlyAt(env, log, issue, associated, base, candidates, i + 1, pr, k);
        }
        if OnlyTrusted(env, log, issue, associated, base, candidates, i + 1, pr) {
          var k :| i + 1 <= k < |candidates| && OnlyAt(env, log, issue, associated, base, candidates, i + 1, pr, k);
          assert OnlyAt(env, log, issue, associated, base, candidates, i, pr, k);
        }
      }
    }
  }

  predicate OnlyAt(env: Env, log: Log, issue: int, associated: Option<int>, base: string, candidates: seq<Pr>, from: nat, pr: Pr, k: nat)
    requires from <= |candidates|
  {
    && k < |candidates| && candidates[k] == pr
    && forall j | from <= j < |candidates| :: Trusted(env, log, issue, associated, base, candidates, j) <==> j == k
  }

  /** `pr` is a candidate that validates, and no other one from `from` on does. */
  predicate OnlyTrusted(env: Env, log: Log, issue: int, associated: Option<int>, base: string, candidates: seq<Pr>, from: nat, pr: Pr)
    requires from <= |candidates|
  {
    exists k :: from <= k < |candidates| && OnlyAt(env, log, issue, associated, base, candidates, from, pr, k)
  }

  /** A search that completes finds a pull request exactly when it is the only listed
      candidate whose snapshot validates, and reports nothing exactly when none does. */
  lemma DiscoveryNeverGuesses(env: Env, log: Log, issue: int, associated: Option<int>, base: string, pr: Pr)
    requires Discover(env, log, issue, associated, base).result.Returned?
    ensures var found := Discover(env, log, issue, associated, base).result.value; var candidates := env.list(log).value;
      && (found == Found(pr) <==> OnlyTrusted(env, log + [List], issue, associated, base, candidates, 0, pr))
      && (found == Nothing <==> forall k | 0 <= k < |candidates| :: !Trusted(env, log + [List], issue, associated, base, candidates, k))
  {
    hide Trusted, ValidFrom, OnlyTrusted;
    var candidates := env.list(log).value;
    ValidIsTrusted(env, log + [List], issue, associated, base, candidates);
    OneTrusted(env, log + [List], issue, associated, base, candidates, 0, pr);
  }

  // ----------------------------------------------------------------- recovery

  /** What the session stores. */
  datatype Association = Association(number: Option<int>, url: Option<string>)

  datatype Source = Preserved | Discovered

  datatype Recovery = Recovered(pr: Pr, source: Source) | Refused

  datatype Ended<+T> = Ended(stored: Association, log: Log, result: Outcome<T>)

  const NONE := Association(None, None)

  function Stored(pr: Pr): Association {
    Association(Some(pr.number), Some(pr.url))
  }

  function RecoverByDiscovery(env: Env, stored: Association, log: Log, issue: int, base: string): Ended<Recovery> {
    var d := Discover(env, log, issue, None, base);
    match d.result
    case Threw => Ended(stored, d.log, Threw)
    case Returned(Found(pr)) =>
      if env.ok(d.log) then Ended(Stored(pr), d.log + [Associate(pr)], Returned(Recovered(pr, Discovered)))
      else Ended(stored, d.log + [Associate(pr)], Threw)
    case Returned(_) => Ended(stored, d.log, Returned(Refused))
  }

  /** `recover`, on a state that mirrors what is stored. */
  function Recover(env: Env, stored: Association, log: Log, issue: int, base: string): Ended<Recovery> {
    if stored.number.None? then RecoverByDiscovery(env, stored, log, issue, base)
    else
      var number := stored.number.value;
      var got := log + [Get(number)];
      var answer := env.get(log, number);
      if answer.Threw? then Ended(stored, got, Threw)
      else if answer.value.Some? && Validate(issue, stored.number, number, answer.value.value, base).None? then
        Ended(stored, got, Returned(Recovered(Pr(number, if stored.url.Some? then stored.url.value else ""), Preserved)))
      else if !env.ok(got) then Ended(stored, got + [Clear], Threw)
      else RecoverByDiscovery(env, NONE, got + [Clear], issue, base)
  }

  /** Some fetch of this pull request, after the first `from` calls, came back with the
      issue's branch, the base, open and unmerged. */
  ghost predicate SeenMatching(env: Env, log: Log, from: nat, number: int, issue: int, base: string) {
    exists i :: from <= i < |log| && log[i] == Get(number) && AnswersMatching(env, log[..i], number, issue, base)
  }

  predicate AnswersMatching(env: Env, log: Log, number: int, issue: int, base: string) {
    var answer := env.get(log, number);
    answer.Returned? && answer.value.Some? && Matches(issue, answer.value.value, base)
  }

  lemma {:induction false} ValidWereSeen(env: Env, log: Log, issue: int, base: string, candidates: seq<Pr>)
    ensures var v := ValidFrom(env, log, issue, None, base, candidates);
      && log <= v.log
      && (v.result.Returned? ==> forall pr <- v.result.value :: SeenMatching(env, v.log, |log|, pr.number, issue, base))
    decreases |candidates|
  {
    hide Validate, Matches;
    if candidates != [] {
      var c := candidates[0];
      var next := log + [Get(c.number)];
      ValidWereSeen(env, next, issue, base, candidates[1..]);
      var v := ValidFrom(env, log, issue, None, base, candidates);
      assert next[..|log|] == log;
      if v.result.Returned? {
        var answer := env.get(log, c.number).value;
        if answer.Some? {
          ValidationMeansMatching(issue, None, c.number, answer.value, base);
        }
        assert v.log[|log|] == next[|log|] && v.log[..|log|] == log;
        forall pr <- v.result.value
          ensures SeenMatching(env, v.log, |log|, pr.number, issue, base)
        {
          if pr in ValidFrom(env, next, issue, None, base, candidates[1..]).result.value {
            var i :| |next| <= i < |v.log| && v.log[i] == Get(pr.number) && AnswersMatching(env, v.log[..i], pr.number, issue, base);
          } else {
            assert pr == c && AnswersMatching(env, log, c.number, issue, base);
          }
        }
      }
    }
  }

  lemma DiscoveredWasSeen(env: Env, log: Log, issue: int, base: string)
    ensures var d := Discover(env, log, issue, None, base);
      && log <= d.log
      && (d.result.Returned? && d.result.value.Found? ==> SeenMatching(env, d.log, |log|, d.result.value.pr.number, issue, base))
  {
    hide Validate, ValidFrom, AnswersMatching;
    if env.list(log).Returned? {
      ValidWereSeen(env, log + [List], issue, base, env.list(log).value);
      var v := ValidFrom(env, log + [List], issue, None, base, env.list(log).value);
      if v.result.Returned? && |v.result.value| == 1 {
        var pr := v.result.value[0];
        assert pr in v.result.value;
        var i :| |log| + 1 <= i < |v.log| && v.log[i] == Get(pr.number) && AnswersMatching(env, v.log[..i], pr.number, issue, base);
      }
    }
  }

  lemma SeenEarlier(env: Env, before: Log, after: Log, from: nat, number: int, issue: int, base: string)
    requires before <= after && SeenMatching(env, before, from, number, issue, base)
    ensures SeenMatching(env, after, from, number, issue, base)
  {
    hide AnswersMatching;
    var i :| from <= i < |before| && before[i] == Get(number) && AnswersMatching(env, before[..i], number, issue, base);
    assert after[i] == before[i] && after[..i] == before[..i];
  }

  lemma RecoveryByDiscoveryIsSound(env: Env, stored: Association, log: Log, issue: int, base: string)
    ensures var r := RecoverByDiscovery(env, stored, log, issue, base);
      && log <= r.log
      && (r.result.Returned? && r.result.value.Recovered? ==>
            && SeenMatching(env, r.log, |log|, r.result.value.pr.number, issue, base)
            && r.stored == Stored(r.result.value.pr) && r.result.value.source.Discovered?)
      && (r.result.Threw? || r.result.value.Refused? ==> r.stored == stored)
  {
    hide Discover, SeenMatching;
    DiscoveredWasSeen(env, log, issue, base);
    var d := Discover(env, log, issue, None, base);
    if d.result.Returned? && d.result.value.Found? {
      var pr := d.result.value.pr;
      SeenEarlier(env, d.log, d.log + [Associate(pr)], |log|, pr.number, issue, base);
    }
  }

  /** Recovery succeeds only for a pull request whose snapshot, fetched during the call, has
      the issue's branch and the base and is open and unmerged. The stored association ends
      as that pull request, empty after a refusal, and after a throw as before or empty. */
  lemma RecoveryIsSound(env: Env, stored: Association, log: Log, issue: int, base: string)
    ensures var r := Recover(env, stored, log, issue, base);
      && (r.result.Returned? && r.result.value.Recovered? ==>
            && SeenMatching(env, r.log, |log|, r.result.value.pr.number, issue, base)
            && r.stored.number == Some(r.result.value.pr.number)
            && (r.result.value.source.Discovered? ==> r.stored == Stored(r.result.value.pr))
            && (r.result.value.source.Preserved? ==> r.stored == stored && r.log == log + [Get(r.result.value.pr.number)]))
      && (r.result.Returned? && r.result.value.Refused? ==> r.stored.number == None)
      && (r.result.Threw? ==> r.stored == stored || r.stored == NONE)
  {
    hide Validate, Matches, RecoverByDiscovery;
    if stored.number.None? {
      hide SeenMatching;
      RecoveryByDiscoveryIsSound(env, stored, log, issue, base);
    } else {
      var number := stored.number.value;
      var got := log + [Get(number)];
      var answer := env.get(log, number);
      if answer.Returned? {
        if answer.value.Some? {
          ValidationMeansMatching(issue, stored.number, number, answer.value.value, base);
        }
        assert got[|log|] == Get(number) && got[..|log|] == log;
        RecoveryByDiscoveryIsSound(env, NONE, got + [Clear], issue, base);
        var later := RecoverByDiscovery(env, NONE, got + [Clear], issue, base);
        if later.result.Returned? && later.result.value.Recovered? {
          SeenSince(env, later.log, |got| + 1, |log|, later.result.value.pr.number, issue, base);
        }
      }
    }
  }

  lemma SeenSince(env: Env, log: Log, from: nat, earlier: nat, number: int, issue: int, base: string)
    requires earlier <= from && SeenMatching(env, log, from, number, issue, base)
    ensures SeenMatching(env, log, earlier, number, issue, base)
  {
    hide AnswersMatching;
    var i :| from <= i < |log| && log[i] == Get(number) && AnswersMatching(env, log[..i], number, issue, base);
  }

  // ----------------------------------------------------------------- creation

  datatype Creation = Created(pr: Pr) | Existed(pr: Pr) | NoChanges

  /** createPR: any error, also one of storing the association, is reconciled with what
      GitHub lists before it is thrown again. */
  function CreatePr(env: Env, stored: Association, log: Log, issue: int, base: string): Ended<Creation> {
    var created := log + [Create];
    match env.create(log)
    case Returned(None) => Ended(stored, created, Returned(NoChanges))
    case Returned(Some(pr)) =>
      if env.ok(created) then Ended(Stored(pr), created + [Associate(pr)], Returned(Created(pr)))
      else Reconcile(env, stored, created + [Associate(pr)], issue, base)
    case Threw => Reconcile(env, stored, created, issue, base)
  }

  function Reconcile(env: Env, stored: Association, log: Log, issue: int, base: string): Ended<Creation> {
    var f := FindExisting(env, log, BranchOf(issue), base);
    match f.result
    case Threw => Ended(stored, f.log, Threw)
    case Returned(Some(pr)) =>
      if env.ok(f.log) then Ended(Stored(pr), f.log + [Associate(pr)], Returned(Existed(pr)))
      else Ended(stored, f.log + [Associate(pr)], Threw)
    case Returned(None) => Ended(stored, f.log, if env.noCommits then Returned(NoChanges) else Threw)
  }

  function Creations(log: Log): nat {
    multiset(log)[Create]
  }

  lemma {:induction false} SearchingCreatesNothing(env: Env, log: Log, head: string, base: string, candidates: seq<Pr>)
    ensures var v := ExistingFrom(env, log, head, base, candidates); log <= v.log && Creations(v.log) == Creations(log)
    decreases |candidates|
  {
    if candidates != [] {
      SearchingCreatesNothing(env, log + [Get(candidates[0].number)], head, base, candidates[1..]);
    }
  }

  /** Delivery asks for a new pull request once, and whatever pull request it reports is the
      one stored. An existing one is reported only when it is the only listed candidate that
      recovery would trust, too. */
  lemma CreationIsReconciled(env: Env, stored: Association, log: Log, issue: int, base: string)
    ensures var r := CreatePr(env, stored, log, issue, base);
      && Creations(r.log) == Creations(log) + 1
      && (r.result.Returned? && !r.result.value.NoChanges? ==> r.stored == Stored(r.result.value.pr))
      && (r.result.Threw? || r.result.value.NoChanges? ==> r.stored == stored)
      && (r.result.Returned? && r.result.value.Existed? ==> SeenMatching(env, r.log, |log|, r.result.value.pr.number, issue, base))
  {
    hide BranchOf, Reconcile, SeenMatching;
    var created := log + [Create];
    ReconciliationIsSound(env, stored, created, issue, base);
    match env.create(log) {
      case Returned(Some(pr)) =>
        ReconciliationIsSound(env, stored, created + [Associate(pr)], issue, base);
        var later := Reconcile(env, stored, created + [Associate(pr)], issue, base);
        if later.result.Returned? && later.result.value.Existed? {
          SeenSince(env, later.log, |created| + 1, |log|, later.result.value.pr.number, issue, base);
        }
      case _ =>
        var later := Reconcile(env, stored, created, issue, base);
        if later.result.Returned? && later.result.value.Existed? {
          SeenSince(env, later.log, |created|, |log|, later.result.value.pr.number, issue, base);
        }
    }
  }

  lemma ExistingMatches(issue: int, pr: Info, base: string)
    requires IsExisting(pr, BranchOf(issue), base)
    ensures Matches(issue, pr, base)
  {
  }

  lemma {:induction false} ExistingWereSeen(env: Env, log: Log, issue: int, base: string, candidates: seq<Pr>)
    ensures var v := ExistingFrom(env, log, BranchOf(issue), base, candidates);
      && log <= v.log
      && (v.result.Returned? ==> forall pr <- v.result.value :: SeenMatching(env, v.log, |log|, pr.number, issue, base))
    decreases |candidates|
  {
    hide BranchOf;
    if candidates != [] {
      var c := candidates[0];
      var next := log + [Get(c.number)];
      ExistingWereSeen(env, next, issue, base, candidates[1..]);
      var v := ExistingFrom(env, log, BranchOf(issue), base, candidates);
      assert next[..|log|] == log;
      if v.result.Returned? {
        assert v.log[|log|] == next[|log|] && v.log[..|log|] == log;
        forall pr <- v.result.value
          ensures SeenMatching(env, v.log, |log|, pr.number, issue, base)
        {
          if pr in ExistingFrom(env, next, BranchOf(issue), base, candidates[1..]).result.value {
            var i :| |next| <= i < |v.log| && v.log[i] == Get(pr.number) && AnswersMatching(env, v.log[..i], pr.number, issue, base);
          } else {
            assert pr == c;
            ExistingMatches(issue, env.get(log, c.number).value.value, base);
          }
        }
      }
    }
  }

  lemma ExistingWasSeen(env: Env, log: Log, issue: int, base: string)
    ensures var f := FindExisting(env, log, BranchOf(issue), base);
      && log <= f.log
      && (f.result.Returned? && f.result.value.Some? ==> SeenMatching(env, f.log, |log|, f.result.value.value.number, issue, base))
  {
    hide BranchOf, ExistingFrom, AnswersMatching;
    if env.list(log).Returned? {
      ExistingWereSeen(env, log + [List], issue, base, env.list(log).value);
      var v := ExistingFrom(env, log + [List], BranchOf(issue), base, env.list(log).value);
      if v.result.Returned? && |v.result.value| == 1 {
        var pr := v.result.value[0];
        assert pr in v.result.value;
        SeenSince(env, v.log, |log| + 1, |log|, pr.number, issue, base);
      }
    }
  }

  lemma ReconciliationIsSound(env: Env, stored: Association, log: Log, issue: int, base: string)
    ensures var r := Reconcile(env, stored, log, issue, base);
      && Creations(r.log) == Creations(log)
      && (r.result.Returned? && !r.result.value.NoChanges? ==> r.result.value.Existed? && r.stored == Stored(r.result.value.pr))
      && (r.result.Threw? || r.result.value.NoChanges? ==> r.stored == stored)
      && (r.result.Returned? && r.result.value.Existed? ==> SeenMatching(env, r.log, |log|, r.result.value.pr.number, issue, base))
  {
    hide BranchOf, SeenMatching, ExistingFrom;
    ExistingWasSeen(env, log, issue, base);
    if env.list(log).Returned? {
      SearchingCreatesNothing(env, log + [List], BranchOf(issue), base, env.list(log).value);
    }
    var f := FindExisting(env, log, BranchOf(issue), base);
    if f.result.Returned? && f.result.value.Some? {
      var pr := f.result.value.value;
      SeenEarlier(env, f.log, f.log + [Associate(pr)], |log|, pr.number, issue, base);
    }
  }

  /** One turn of the loop of `discover`. */
  lemma ValidStep(env: Env, log: Log, issue: int, associated: Option<int>, base: string, candidates: seq<Pr>, i: nat)
    requires i < |candidates|
    ensures var c := candidates[i]; var answer := env.get(log, c.number);
      ValidFrom(env, log, issue, associated, base, candidates[i..]) ==
        if answer.Threw? then Run(log + [Get(c.number)], Threw)
        else
          var rest := ValidFrom(env, log + [Get(c.number)], issue, associated, base, candidates[i + 1..]);
          var valid := answer.value.Some? && Validate(issue, associated, c.number, answer.value.value, base).None?;
          Run(rest.log, if rest.result.Threw? then Threw else Returned((if valid then [c] else []) + rest.result.value))
  {
    assert candidates[i..][0] == candidates[i] && candidates[i..][1..] == candidates[i + 1..];
  }

  lemma NoneLeft(env: Env, log: Log, issue: int, associated: Option<int>, base: string, candidates: seq<Pr>)
    ensures candidates == [] ==> ValidFrom(env, log, issue, associated, base, candidates) == Run(log, Returned([]))
  {
  }

  // -------------------------------------------------------------- the services

  /** The calls made and the association stored, for one issue. */
  class PrService {
    const env: Env
    const issue: int
    const base: string
    var log: Log
    var stored: Association

    constructor (env: Env, issue: int, base: string, stored: Association)
      ensures this.env == env && this.issue == issue && this.base == base && log == [] && this.stored == stored
    {
      this.env, this.issue, this.base, this.stored, log := env, issue, base, stored, [];
    }

    method GetPullRequest(number: int) returns (pr: Outcome<Option<Info>>)
      modifies this`log
      ensures pr == env.get(old(log), number) && log == old(log) + [Get(number)]
    {
      pr := env.get(log, number);
      log := log + [Get(number)];
    }

    method ListPullRequests() returns (candidates: Outcome<seq<Pr>>)
      modifies this`log
      ensures candidates == env.list(old(log)) && log == old(log) + [List]
    {
      candidates := env.list(log);
      log := log + [List];
    }

    method ClearAssociation() returns (ok: bool)
      modifies this
      ensures ok == env.ok(old(log)) && log == old(log) + [Clear] && stored == if ok then NONE else old(stored)
    {
      ok := env.ok(log);
      log := log + [Clear];
      if ok {
        stored := NONE;
      }
    }

    method AssociatePr(pr: Pr) returns (ok: bool)
      modifies this
      ensures ok == env.ok(old(log)) && log == old(log) + [Associate(pr)] && stored == if ok then Stored(pr) else old(stored)
    {
      ok := env.ok(log);
      log := log + [Associate(pr)];
      if ok {
        stored := Stored(pr);
      }
    }

    method DiscoverPr(associated: Option<int>) returns (discovery: Outcome<Discovery>)
      modifies this`log
      ensures Discover(env, old(log), issue, associated, base) == Run(log, discovery)
    {
      hide Validate, ValidFrom;
      var candidates := ListPullRequests();
      if candidates.Threw? {
        return Threw;
      }
      var valid: seq<Pr> := [];
      var i := 0;
      ghost var listed := log;
      assert candidates.value[0..] == candidates.value;
      ghost var all := ValidFrom(env, listed, issue, associated, base, candidates.value);
      assert all.result.Returned? ==> [] + all.result.value == all.result.value;
      while i < |candidates.value|
        invariant 0 <= i <= |candidates.value|
        invariant var rest := ValidFrom(env, log, issue, associated, base, candidates.value[i..]);
          all == Run(rest.log, if rest.result.Threw? then Threw else Returned(valid + rest.result.value))
      {
        var c := candidates.value[i];
        ValidStep(env, log, issue, associated, base, candidates.value, i);
        var pr := GetPullRequest(c.number);
        if pr.Threw? {
          return Threw;
        }
        ghost var rest := ValidFrom(env, log, issue, associated, base, candidates.value[i + 1..]);
        if pr.value.Some? && Validate(issue, associated, c.number, pr.value.value, base).None? {
          assert rest.result.Returned? ==> valid + ([c] + rest.result.value) == valid + [c] + rest.result.value;
          valid := valid + [c];
        } else {
          assert rest.result.Returned? ==> [] + rest.result.value == rest.result.value;
        }
        i := i + 1;
      }
      NoneLeft(env, log, issue, associated, base, candidates.value[i..]);
      assert valid + [] == valid;
      if |valid| == 1 {
        return Returned(Found(valid[0]));
      }
      if |valid| == 0 {
        return Returned(Nothing);
      }
      return Returned(Ambiguous(|valid|));
    }

    method FindExistingPr(head: string) returns (existing: Outcome<Option<Pr>>)
      modifies this`log
      ensures FindExisting(env, old(log), head, base) == Run(log, existing)
    {
      hide IsExisting;
      var candidates := ListPullRequests();
      if candidates.Threw? {
        return Threw;
      }
      var valid: seq<Pr> := [];
      var i := 0;
      ghost var listed := log;
      assert candidates.value[0..] == candidates.value;
      ghost var all := ExistingFrom(env, listed, head, base, candidates.value);
      assert all.result.Returned? ==> [] + all.result.value == all.result.value;
      while i < |candidates.value|
        invariant 0 <= i <= |candidates.value|
        invariant var rest := ExistingFrom(env, log, head, base, candidates.value[i..]);
          all == Run(rest.log, if rest.result.Threw? then Threw else Returned(valid + rest.result.value))
      {
        var c := candidates.value[i];
        assert candidates.value[i..][0] == c && candidates.value[i..][1..] == candidates.value[i + 1..];
        var pr := GetPullRequest(c.number);
        if pr.Threw? {
          return Threw;
        }
        ghost var rest := ExistingFrom(env, log, head, base, candidates.value[i + 1..]);
        if pr.value.Some? && IsExisting(pr.value.value, head, base) {
          assert rest.result.Returned? ==> valid + ([c] + rest.result.value) == valid + [c] + rest.result.value;
          valid := valid + [c];
        } else {
          assert rest.result.Returned? ==> [] + rest.result.value == rest.result.value;
        }
        i := i + 1;
      }
      assert valid + [] == valid;
      return Returned(if |valid| == 1 then Some(valid[0]) else None);
    }

    method RecoverPr() returns (recovery: Outcome<Recovery>)
      modifies this
      ensures Recover(env, old(stored), old(log), issue, base) == Ended(stored, log, recovery)
    {
      hide Validate, Discover;
      if stored.number.Some? {
        var number := stored.number.value;
        var pr := GetPullRequest(number);
        if pr.Threw? {
          return Threw;
        }
        if pr.value.Some? && Validate(issue, stored.number, number, pr.value.value, base).None? {
          return Returned(Recovered(Pr(number, if stored.url.Some? then stored.url.value else ""), Preserved));
        }
        var cleared := ClearAssociation();
        if !cleared {
          return Threw;
        }
      }
      var discovery := DiscoverPr(None);
      if discovery.Threw? {
        return Threw;
      }
      if discovery.value.Found? {
        var ok := AssociatePr(discovery.value.pr);
        return if ok then Returned(Recovered(discovery.value.pr, Discovered)) else Threw;
      }
      return Returned(Refused);
    }

    method CreatePullRequest() returns (creation: Outcome<Creation>)
      modifies this
      ensures CreatePr(env, old(stored), old(log), issue, base) == Ended(stored, log, creation)
    {
      hide FindExisting, BranchOf;
      var created := env.create(log);
      log := log + [Create];
      if created.Returned? {
        if created.value.None? {
          return Returned(NoChanges);
        }
        var ok := AssociatePr(created.value.value);
        if ok {
          return Returned(Created(created.value.value));
        }
      }
      var existing := FindExistingPr(BranchOf(issue));
      if existing.Threw? {
        return Threw;
      }
      if existing.value.Some? {
        var ok := AssociatePr(existing.value.value);
        return if ok then Returned(Existed(existing.value.value)) else Threw;
      }
      return if env.noCommits then Returned(NoChanges) else Threw;
    }
  }
}
