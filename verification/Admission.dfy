/** The admission protocol: five kinds of handler contend for issue keys.

    JavaScript runs the code between two awaits without interruption, so one
    such stretch is one step here. A program counter names the await (or the run
    of awaits inside one block) a handler is suspended at, and an `Answer` says
    how that await ends. */
module Admission {
  import opened Wrappers
  import opened TaskControl

  type Key = string

  /** Two positions give an answer a meaning of their own: at `Start` `Proceed` says that
      a comment came with the event, and at `Rereading` `Worker` says that the result goes
      to delivery and `Proceed` that it is only reported. */
  datatype Answer =
    | Again                  // the block awaits something else
    | Proceed                // the block is over and the handler goes on
    | Stop                   // the handler turns the event down or ends early
    | Worker                 // the block starts an executor call
    | Throw(fatal: bool)     // the awaited promise rejects

  /** ExecuteSession.run */
  datatype RunPc =
    | Start | Steering
    | Preparing                      // worktree, session, preflight, sync, mark working
    | Blocked                        // failBeforeExecution
    | Starting                       // the status update before the executor
    | Executing
    | Stamping(error: Option<bool>)  // the inner finally
    | Cancelling | SelfReporting | Failing
    | Rereading | Delivering | Reworking | Reporting
    | RunOver

  /** HandlePRReview, from resolving the session */
  datatype ReviewPc =
    | Resolving | Fetching | Replying
    | Refused                        // register returned null
    | Heading                        // getPullRequest, outside the try
    | Readying | Reviewing | Aborting | Recovering
    | Posting                        // after unregister
    | ReviewOver | ReviewLeaked

  /** HandleIssueRefinement.execute */
  datatype RefinePc =
    | Authorizing | Checking
    | Opening                        // before `sessionStarted = true`
    | Running | Refining
    | Catching(started: bool)
    | Cleaning                       // the await inside finally
    | Removing                       // after unregister
    | RefineOver | RefineLeaked

  /** HandleFixMergeConflicts.execute */
  datatype FixPc = Admitting | Mapping | Declining | Fixing | FixReworking | FixOver

  /** HandleAutoRebaseOnPush.execute, one candidate after the other */
  datatype AutoPc = Listing | Polling | Rebasing | AutoReworking | NextCandidate | AutoOver

  datatype Pc =
    | InRun(run: RunPc)
    | InReview(review: ReviewPc)
    | InRefine(refine: RefinePc)
    | InFix(fix: FixPc)
    | InAuto(auto: AutoPc)

  /** One handler activation. `rest` are the candidates an automatic rebase has
      still to visit; `heard` counts the messages steered to its worker. */
  datatype Process = Process(
    key: Key, rest: seq<Key>, pc: Pc, token: Option<Registration>, aborted: bool, heard: nat)

  datatype State = State(
    active: Registry, nextSymbol: Registration, draining: bool,
    reviewing: set<Key>, refining: set<Key>, procs: seq<Process>)

  /** Between a successful register and the handler's own unregister. */
  predicate Holding(pc: Pc) {
    match pc
    case InRun(r) => !r.Start? && !r.Steering? && !r.RunOver?
    case InReview(r) => r.Heading? || r.Readying? || r.Reviewing? || r.Aborting? || r.Recovering? || r.ReviewLeaked?
    case InRefine(r) => !r.Authorizing? && !r.Checking? && !r.Removing? && !r.RefineOver?
    case InFix(f) => f.Fixing? || f.FixReworking?
    case InAuto(a) => a.Rebasing? || a.AutoReworking?
  }

  /** The awaits at which a worker is running. */
  predicate WorkerRunning(pc: Pc) {
    match pc
    case InRun(r) => r.Executing? || r.Reworking?
    case InReview(r) => r.Reviewing?
    case InRefine(r) => r.Refining?
    case InFix(f) => f.FixReworking?
    case InAuto(a) => a.AutoReworking?
  }

  /** The handler is over but never called unregister. */
  predicate Leaked(pc: Pc) {
    (pc.InReview? && pc.review.ReviewLeaked?) || (pc.InRefine? && pc.refine.RefineLeaked?)
  }

  /** The handler is over. */
  predicate Over(pc: Pc) {
    match pc
    case InRun(r) => r.RunOver?
    case InReview(r) => r.ReviewOver? || r.ReviewLeaked?
    case InRefine(r) => r.RefineOver? || r.RefineLeaked?
    case InFix(f) => f.FixOver?
    case InAuto(a) => a.AutoOver?
  }

  /** Between `inFlight.add` and `inFlight.delete` of the review handler. */
  predicate ReviewMarked(pc: Pc) {
    pc.InReview? && (Holding(pc) || pc.review.Refused? || pc.review.Posting?) && !pc.review.ReviewLeaked?
  }

  /** What a handler does with the registry when it is resumed. */
  datatype Move<P> =
    | Goto(pc: P)
    | Admit(admitted: P, refused: P)  // tasks.register
    | Leave(pc: P)                    // tasks.unregister with its own token

  function Caught(aborted: bool, fatal: bool): RunPc {
    if aborted then Cancelling else if fatal then SelfReporting else Failing
  }

  function ResumeRun(pc: RunPc, aborted: bool, a: Answer): Move<RunPc> {
    match pc
    case Start => Admit(Preparing, if a.Proceed? then Steering else RunOver)
    case Steering => Goto(RunOver)
    case Preparing =>
      (match a
       case Again => Goto(Preparing)
       case Stop => Goto(Blocked)
       case Throw(_) => Leave(RunOver)
       case _ => Goto(Starting))
    case Starting => Goto(if a.Throw? then Caught(aborted, a.fatal) else Executing)
    case Executing => Goto(Stamping(if a.Throw? then Some(a.fatal) else None))
    case Stamping(error) =>
      Goto(if a.Throw? then Caught(aborted, a.fatal)
           else if error.Some? then Caught(aborted, error.value)
           else Rereading)
    case Rereading =>
      (match a
       case Again => Goto(Rereading)
       case Worker => Goto(Delivering)
       case Proceed => Goto(Reporting)
       case _ => Leave(RunOver))
    case Delivering =>
      (match a
       case Again => Goto(Delivering)
       case Worker => Goto(Reworking)
       case _ => Leave(RunOver))
    case Reworking => Goto(Delivering)
    case RunOver => Goto(RunOver)
    case _ => if a.Again? then Goto(pc) else Leave(RunOver)
  }

  function ResumeReview(pc: ReviewPc, aborted: bool, marked: bool, draining: bool, a: Answer): Move<ReviewPc> {
    match pc
    case Resolving => Goto(if !a.Proceed? || marked then ReviewOver else Fetching)
    case Fetching =>
      if a.Throw? then Goto(ReviewOver)
      else if a.Stop? || draining then Goto(Replying)
      else Admit(Heading, Refused)
    case Heading => Goto(if a.Throw? then ReviewLeaked else Readying)
    case Readying =>
      (match a
       case Worker => Goto(Reviewing)
       case Throw(_) => Goto(if aborted then Aborting else Recovering)
       case _ => Goto(Readying))
    case Reviewing => if a.Throw? then Goto(if aborted then Aborting else Recovering) else Leave(Posting)
    case Aborting => if a.Again? then Goto(Aborting) else Leave(ReviewOver)
    case Recovering => if a.Again? then Goto(Recovering) else Leave(ReviewOver)
    case ReviewLeaked => Goto(ReviewLeaked)
    case _ => Goto(if a.Again? then pc else ReviewOver)
  }

  function ResumeRefine(pc: RefinePc, blocked: bool, a: Answer): Move<RefinePc> {
    match pc
    case Authorizing => Goto(if !a.Proceed? || blocked then RefineOver else Checking)
    case Checking =>
      (match a
       case Again => Goto(Checking)
       case Proceed => Admit(Opening, RefineOver)
       case _ => Goto(RefineOver))
    case Opening => Goto(if a.Again? then Opening else if a.Throw? then Catching(false) else Running)
    case Running =>
      (match a
       case Again => Goto(Running)
       case Worker => Goto(Refining)
       case Throw(_) => Goto(Catching(true))
       case _ => Goto(Cleaning))
    case Refining => Goto(if a.Throw? then Catching(true) else Running)
    case Catching(started) =>
      if a.Again? then Goto(Catching(started)) else if started then Goto(Cleaning) else Leave(RefineOver)
    case Cleaning => if a.Throw? then Goto(RefineLeaked) else if a.Again? then Goto(Cleaning) else Leave(Removing)
    case RefineLeaked => Goto(RefineLeaked)
    case _ => Goto(RefineOver)
  }

  function ResumeFix(pc: FixPc, taken: bool, draining: bool, a: Answer): Move<FixPc> {
    match pc
    case Admitting => Goto(if a.Throw? then FixOver else if a.Stop? || draining then Declining else Mapping)
    case Mapping =>
      (match a
       case Again => Goto(Mapping)
       case Throw(_) => Goto(FixOver)
       case Proceed => if taken then Goto(Declining) else Admit(Fixing, Declining)
       case _ => Goto(Declining))
    case Fixing =>
      (match a
       case Again => Goto(Fixing)
       case Worker => Goto(FixReworking)
       case _ => Leave(FixOver))
    case FixReworking => if a.Throw? then Leave(FixOver) else Goto(Fixing)
    case _ => Goto(FixOver)
  }

  /** The draining test of `execute` is at its entry, before the first await. */
  function ResumeAuto(pc: AutoPc, taken: bool, a: Answer): Move<AutoPc> {
    match pc
    case Listing => Goto(if a.Again? then Listing else if a.Proceed? then Polling else AutoOver)
    case Polling =>
      (match a
       case Again => Goto(Polling)
       case Proceed => if taken then Goto(NextCandidate) else Admit(Rebasing, NextCandidate)
       case _ => Goto(NextCandidate))
    case Rebasing =>
      (match a
       case Again => Goto(Rebasing)
       case Worker => Goto(AutoReworking)
       case _ => Leave(NextCandidate))
    case AutoReworking => if a.Throw? then Leave(NextCandidate) else Goto(Rebasing)
    case NextCandidate => Goto(NextCandidate)
    case AutoOver => Goto(AutoOver)
  }

  function Lift<P>(m: Move<P>, into: P -> Pc): Move<Pc> {
    match m
    case Goto(pc) => Goto(into(pc))
    case Admit(admitted, refused) => Admit(into(admitted), into(refused))
    case Leave(pc) => Leave(into(pc))
  }

  function Resumed(s: State, p: Process, a: Answer): Move<Pc> {
    match p.pc
    case InRun(pc) => Lift(ResumeRun(pc, p.aborted, a), r => InRun(r))
    case InReview(pc) => Lift(ResumeReview(pc, p.aborted, p.key in s.reviewing, s.draining, a), r => InReview(r))
    case InRefine(pc) => Lift(ResumeRefine(pc, p.key in s.refining || p.key in s.active, a), r => InRefine(r))
    case InFix(pc) => Lift(ResumeFix(pc, p.key in s.active, s.draining, a), r => InFix(r))
    case InAuto(pc) => Lift(ResumeAuto(pc, p.key in s.active, a), r => InAuto(r))
  }

  /** Only the two handlers with an executor-facing AbortController and a live
      session pass callbacks that do anything. */
  predicate Wired(pc: Pc) {
    pc.InRun? || pc.InReview?
  }

  function NewTask(s: State, i: nat): Task
    requires i < |s.procs|
  {
    var wired := Wired(s.procs[i].pc);
    Task(s.nextSymbol, i, wired, if wired then LiveSession else Discards)
  }

  /** Moves a process; an automatic rebase takes up its next candidate. */
  function Moved(p: Process, pc: Pc): Process {
    if pc.InAuto? && pc.auto.NextCandidate? then
      if p.rest == [] then p.(pc := InAuto(AutoOver))
      else p.(pc := InAuto(Polling), key := p.rest[0], rest := p.rest[1..])
    else p.(pc := pc)
  }

  /** The review handler's `finally` drops its in-flight mark on every exit. */
  function Unmark(s: State, p: Process, pc: Pc): set<Key> {
    if ReviewMarked(p.pc) && !ReviewMarked(pc) then s.reviewing - {p.key} else s.reviewing
  }

  function Gone(s: State, i: nat, pc: Pc): State
    requires i < |s.procs|
  {
    s.(procs := s.procs[i := Moved(s.procs[i], pc)], reviewing := Unmark(s, s.procs[i], pc))
  }

  function Admitted(s: State, i: nat, admitted: Pc, refused: Pc): State
    requires i < |s.procs|
  {
    var p := s.procs[i];
    var reviewing := if p.pc.InReview? then s.reviewing + {p.key} else s.reviewing;
    if p.key in s.active then
      s.(procs := s.procs[i := Moved(p, refused)], reviewing := reviewing,
         refining := if p.pc.InRefine? then s.refining - {p.key} else s.refining)
    else
      s.(procs := s.procs[i := p.(pc := admitted, token := Some(s.nextSymbol))],
         active := Registered(s.active, p.key, NewTask(s, i)),
         nextSymbol := s.nextSymbol + 1, reviewing := reviewing,
         refining := if p.pc.InRefine? then s.refining + {p.key} else s.refining)
  }

  function Left(s: State, i: nat, pc: Pc): State
    requires i < |s.procs|
  {
    var p := s.procs[i];
    s.(procs := s.procs[i := Moved(p, pc)],
       active := Unregistered(s.active, p.key, p.token),
       reviewing := Unmark(s, p, pc),
       refining := if p.pc.InRefine? then s.refining - {p.key} else s.refining)
  }

  function Applied(s: State, i: nat, m: Move<Pc>): State
    requires i < |s.procs|
  {
    match m
    case Goto(pc) => Gone(s, i, pc)
    case Admit(admitted, refused) => Admitted(s, i, admitted, refused)
    case Leave(pc) => Left(s, i, pc)
  }

  datatype Step =
    | Spawn(entry: Pc, key: Key, rest: seq<Key>)
    | Resume(pid: nat, answer: Answer)
    | Cancel(key: Key)
    | Steer(key: Key, accepted: bool)
    | SetDraining(value: bool)
    | LateUnregister(key: Key, token: Registration)

  const ENTRIES := {InRun(Start), InReview(Resolving), InRefine(Authorizing), InFix(Admitting), InAuto(Listing)}

  /** The registrations some process still holds. */
  predicate HeldToken(s: State, token: Registration) {
    exists i :: 0 <= i < |s.procs| && Holding(s.procs[i].pc) && s.procs[i].token == Some(token)
  }

  /** A late unregister presents any token that no process holds any more. */
  predicate Enabled(s: State, step: Step) {
    match step
    case Spawn(entry, _, _) => entry in ENTRIES && (entry.InAuto? ==> !s.draining)
    case Resume(pid, _) => pid < |s.procs|
    case LateUnregister(_, token) => !HeldToken(s, token)
    case _ => true
  }

  /** What `TaskController.steer` returns. */
  predicate SteerReported(s: State, key: Key, accepted: bool) {
    key in s.active && !s.active[key].sink.NoSteer? && accepted
  }

  function Next(s: State, step: Step): State
    requires Enabled(s, step)
  {
    match step
    case Spawn(entry, key, rest) =>
      s.(procs := s.procs + [Process(key, rest, entry, None, false, 0)])
    case Resume(i, a) => Applied(s, i, Resumed(s, s.procs[i], a))
    case Cancel(key) =>
      if key in s.active && s.active[key].abortable && s.active[key].owner < |s.procs| then
        var o := s.active[key].owner;
        s.(procs := s.procs[o := s.procs[o].(aborted := true)])
      else s
    case Steer(key, accepted) =>
      if SteerReported(s, key, accepted) && s.active[key].sink.LiveSession? && s.active[key].owner < |s.procs| then
        var o := s.active[key].owner;
        s.(procs := s.procs[o := s.procs[o].(heard := s.procs[o].heard + 1)])
      else s
    case SetDraining(value) => s.(draining := value)
    case LateUnregister(key, token) => s.(active := Unregistered(s.active, key, Some(token)))
  }

  const INITIAL := State(map[], 0, false, {}, {}, [])

  // ---------------------------------------------------------------- invariant

  /** The key is taken in this process's name and with its token. */
  predicate Holds(s: State, i: nat)
    requires i < |s.procs|
  {
    var p := s.procs[i];
    && p.token.Some? && p.key in s.active
    && s.active[p.key].owner == i && s.active[p.key].registration == p.token.value
    && s.active[p.key].abortable == Wired(p.pc)
    && s.active[p.key].sink == if Wired(p.pc) then LiveSession else Discards
  }

  predicate OwnedByHolder(s: State, k: Key)
    requires k in s.active
  {
    var o := s.active[k].owner;
    o < |s.procs| && Holding(s.procs[o].pc) && s.procs[o].key == k
  }

  ghost predicate Inv(s: State) {
    && (forall i | 0 <= i < |s.procs| && Holding(s.procs[i].pc) :: Holds(s, i))
    && (forall k <- s.active :: OwnedByHolder(s, k))
    && (forall k <- s.active :: s.active[k].registration < s.nextSymbol)
    && (forall i | 0 <= i < |s.procs| && s.procs[i].token.Some? :: s.procs[i].token.value < s.nextSymbol)
  }

  /** How a move agrees with holding: a registration starts it, leaving ends it,
      nothing else changes it. A handler keeps to its own program. */
  predicate Fits(pc: Pc, m: Move<Pc>) {
    match m
    case Goto(next) => (Holding(next) <==> Holding(pc)) && (Wired(next) <==> Wired(pc)) && (next.InRefine? <==> pc.InRefine?)
    case Admit(admitted, refused) =>
      && !Holding(pc) && Holding(admitted) && !Holding(refused)
      && (Wired(admitted) <==> Wired(pc)) && (admitted.InRefine? <==> pc.InRefine?)
      && !ReviewMarked(pc) && (ReviewMarked(admitted) <==> pc.InReview?) && (ReviewMarked(refused) <==> pc.InReview?)
    case Leave(next) => Holding(pc) && !Leaked(pc) && !Holding(next)
  }

  /** The two awaits inside the section that no try block guards. */
  predicate Unguarded(pc: Pc) {
    pc == InReview(Heading) || pc == InRefine(Cleaning)
  }

  predicate LeaksRight(pc: Pc, a: Answer, m: Move<Pc>) {
    match m
    case Goto(next) => Leaked(next) <==> Leaked(pc) || (a.Throw? && Unguarded(pc))
    case Admit(admitted, refused) => !Leaked(admitted) && !Leaked(refused) && !Unguarded(pc)
    case Leave(next) => !Leaked(next) && !(a.Throw? && Unguarded(pc))
  }

  lemma RunFits(pc: RunPc, aborted: bool, a: Answer)
    ensures var m := Lift(ResumeRun(pc, aborted, a), r => InRun(r));
      Fits(InRun(pc), m) && LeaksRight(InRun(pc), a, m)
  {
  }

  lemma ReviewFits(pc: ReviewPc, aborted: bool, marked: bool, draining: bool, a: Answer)
    ensures var m := Lift(ResumeReview(pc, aborted, marked, draining, a), r => InReview(r));
      Fits(InReview(pc), m) && LeaksRight(InReview(pc), a, m)
  {
  }

  lemma RefineFits(pc: RefinePc, blocked: bool, a: Answer)
    ensures var m := Lift(ResumeRefine(pc, blocked, a), r => InRefine(r));
      Fits(InRefine(pc), m) && LeaksRight(InRefine(pc), a, m)
  {
  }

  lemma FixFits(pc: FixPc, taken: bool, draining: bool, a: Answer)
    ensures var m := Lift(ResumeFix(pc, taken, draining, a), r => InFix(r));
      Fits(InFix(pc), m) && LeaksRight(InFix(pc), a, m)
  {
  }

  lemma AutoFits(pc: AutoPc, taken: bool, a: Answer)
    ensures var m := Lift(ResumeAuto(pc, taken, a), r => InAuto(r));
      Fits(InAuto(pc), m) && LeaksRight(InAuto(pc), a, m)
  {
  }

  lemma ResumedFits(s: State, p: Process, a: Answer)
    ensures Fits(p.pc, Resumed(s, p, a)) && LeaksRight(p.pc, a, Resumed(s, p, a))
  {
    match p.pc
    case InRun(pc) => RunFits(pc, p.aborted, a);
    case InReview(pc) => ReviewFits(pc, p.aborted, p.key in s.reviewing, s.draining, a);
    case InRefine(pc) => RefineFits(pc, p.key in s.refining || p.key in s.active, a);
    case InFix(pc) => FixFits(pc, p.key in s.active, s.draining, a);
    case InAuto(pc) => AutoFits(pc, p.key in s.active, a);
  }

  lemma SameRegistryKeepsInv(s: State, s': State)
    requires Inv(s) && s'.active == s.active && s'.nextSymbol == s.nextSymbol
    requires |s.procs| <= |s'.procs|
    requires forall i | 0 <= i < |s.procs| ::
      && s'.procs[i].token == s.procs[i].token
      && (Holding(s'.procs[i].pc) <==> Holding(s.procs[i].pc))
      && (Holding(s.procs[i].pc) ==> s'.procs[i].key == s.procs[i].key && (Wired(s'.procs[i].pc) <==> Wired(s.procs[i].pc)))
    requires forall i | |s.procs| <= i < |s'.procs| :: !Holding(s'.procs[i].pc) && s'.procs[i].token.None?
    ensures Inv(s')
  {
    forall j | 0 <= j < |s'.procs| && Holding(s'.procs[j].pc)
      ensures Holds(s', j)
    {
      assert Holds(s, j);
    }
    forall k | k in s'.active
      ensures OwnedByHolder(s', k)
    {
      assert OwnedByHolder(s, k);
    }
  }

  lemma AdmittedKeepsInv(s: State, i: nat, admitted: Pc, refused: Pc)
    requires Inv(s) && i < |s.procs| && Fits(s.procs[i].pc, Admit(admitted, refused))
    ensures Inv(Admitted(s, i, admitted, refused))
  {
    if s.procs[i].key in s.active {
      SameRegistryKeepsInv(s, Admitted(s, i, admitted, refused));
    } else {
      NewlyAdmittedKeepsInv(s, Admitted(s, i, admitted, refused), i, admitted);
    }
  }

  lemma NewlyAdmittedKeepsInv(s: State, s': State, i: nat, admitted: Pc)
    requires Inv(s) && i < |s.procs| && s.procs[i].key !in s.active
    requires !Holding(s.procs[i].pc) && Holding(admitted) && (Wired(admitted) <==> Wired(s.procs[i].pc))
    requires s'.procs == s.procs[i := s.procs[i].(pc := admitted, token := Some(s.nextSymbol))]
    requires s'.active == s.active[s.procs[i].key := NewTask(s, i)] && s'.nextSymbol == s.nextSymbol + 1
    ensures Inv(s')
  {
    forall j | 0 <= j < |s'.procs| && Holding(s'.procs[j].pc)
      ensures Holds(s', j)
    {
      if j != i {
        assert Holds(s, j);
      }
    }
    forall k | k in s'.active
      ensures OwnedByHolder(s', k)
    {
      if k != s.procs[i].key {
        assert OwnedByHolder(s, k);
      }
    }
  }

  lemma LeftKeepsInv(s: State, i: nat, pc: Pc)
    requires Inv(s) && i < |s.procs| && Fits(s.procs[i].pc, Leave(pc))
    ensures Inv(Left(s, i, pc))
    ensures Left(s, i, pc).active == s.active - {s.procs[i].key}
  {
    var p := s.procs[i];
    var s' := Left(s, i, pc);
    assert Holds(s, i);
    forall j | 0 <= j < |s'.procs| && Holding(s'.procs[j].pc)
      ensures Holds(s', j)
    {
      assert Holds(s, j);
    }
    forall k | k in s'.active
      ensures OwnedByHolder(s', k)
    {
      assert OwnedByHolder(s, k);
    }
  }

  lemma ResumeKeepsInv(s: State, i: nat, a: Answer)
    requires Inv(s) && i < |s.procs|
    ensures Inv(Next(s, Resume(i, a)))
  {
    var m := Resumed(s, s.procs[i], a);
    ResumedFits(s, s.procs[i], a);
    match m
    case Goto(pc) => SameRegistryKeepsInv(s, Gone(s, i, pc));
    case Admit(admitted, refused) => AdmittedKeepsInv(s, i, admitted, refused);
    case Leave(pc) => LeftKeepsInv(s, i, pc);
  }

  lemma StepKeepsInv(s: State, step: Step)
    requires Inv(s) && Enabled(s, step)
    ensures Inv(Next(s, step))
  {
    match step
    case Resume(i, a) => ResumeKeepsInv(s, i, a);
    case LateUnregister(key, token) => LateTokenFreesNothing(s, key, token);
    case _ => SameRegistryKeepsInv(s, Next(s, step));
  }

  /** A token whose holder is gone frees nobody, whatever key it is presented for. */
  lemma LateTokenFreesNothing(s: State, key: Key, token: Registration)
    requires Inv(s) && !HeldToken(s, token)
    ensures Next(s, LateUnregister(key, token)) == s
  {
    if key in s.active {
      assert OwnedByHolder(s, key);
      assert Holds(s, s.active[key].owner);
    }
  }

  // ---------------------------------------------------------------- every run

  ghost predicate IsRun(states: seq<State>, steps: seq<Step>) {
    && |states| == |steps| + 1 && states[0] == INITIAL
    && (forall i | 0 <= i < |steps| :: Enabled(states[i], steps[i]) && states[i + 1] == Next(states[i], steps[i]))
  }

  lemma {:induction false} RunKeepsInv(states: seq<State>, steps: seq<Step>, i: nat)
    requires IsRun(states, steps) && i < |states|
    ensures Inv(states[i])
  {
    if i > 0 {
      RunKeepsInv(states, steps, i - 1);
      StepKeepsInv(states[i - 1], steps[i - 1]);
    }
  }

  /** In every interleaving at most one activation per key sits between its
      register and its own unregister, so at most one worker runs per key; and
      a key is taken exactly while some activation holds it. */
  lemma MutualExclusion(states: seq<State>, steps: seq<Step>, n: nat)
    requires IsRun(states, steps) && n < |states|
    ensures var s := states[n];
      && (forall i, j | 0 <= i < |s.procs| && 0 <= j < |s.procs| && s.procs[i].key == s.procs[j].key ::
            (Holding(s.procs[i].pc) && Holding(s.procs[j].pc) ==> i == j)
            && (WorkerRunning(s.procs[i].pc) && WorkerRunning(s.procs[j].pc) ==> i == j))
      && (forall k :: k in s.active <==> exists i :: 0 <= i < |s.procs| && s.procs[i].key == k && Holding(s.procs[i].pc))
  {
    var s := states[n];
    RunKeepsInv(states, steps, n);
    forall i, j | 0 <= i < |s.procs| && 0 <= j < |s.procs| && s.procs[i].key == s.procs[j].key
      && Holding(s.procs[i].pc) && Holding(s.procs[j].pc)
      ensures i == j
    {
      assert Holds(s, i) && Holds(s, j);
    }
    forall k
      ensures k in s.active <==> exists i :: 0 <= i < |s.procs| && s.procs[i].key == k && Holding(s.procs[i].pc)
    {
      if k in s.active {
        assert OwnedByHolder(s, k);
      }
      forall i | 0 <= i < |s.procs| && s.procs[i].key == k && Holding(s.procs[i].pc)
        ensures k in s.active
      {
        assert Holds(s, i);
      }
    }
  }

  /** The only step that changes what a taken key maps to is its owner's own
      move out of the section: not a cancel, a steer, another handler or a late
      unregister. */
  lemma OnlyTheOwnerFrees(s: State, step: Step, k: Key)
    requires Inv(s) && Enabled(s, step) && k in s.active
    ensures var s' := Next(s, step); var o := s.active[k].owner;
      (k in s'.active && s'.active[k] == s.active[k])
      <==> !(step.Resume? && step.pid == o && Resumed(s, s.procs[o], step.answer).Leave?)
  {
    assert OwnedByHolder(s, k);
    match step
    case Resume(i, a) =>
      ResumedFits(s, s.procs[i], a);
      if Resumed(s, s.procs[i], a).Leave? {
        LeftKeepsInv(s, i, Resumed(s, s.procs[i], a).pc);
        assert Holds(s, i);
      }
    case LateUnregister(key, token) => LateTokenFreesNothing(s, key, token);
    case _ =>
  }

  /** Once taken, cancelled or not, a key stays with its registration for as long
      as its owner does not leave, and nobody else is admitted to it. */
  lemma {:induction false} KeyStaysTaken(states: seq<State>, steps: seq<Step>, k: Key, i: nat, j: nat)
    requires IsRun(states, steps) && i <= j < |states| && k in states[i].active
    requires forall m | i <= m < j && steps[m].Resume? && steps[m].pid == states[i].active[k].owner
      :: !Resumed(states[m], states[m].procs[steps[m].pid], steps[m].answer).Leave?
    ensures k in states[j].active && states[j].active[k] == states[i].active[k]
  {
    if i < j {
      KeyStaysTaken(states, steps, k, i, j - 1);
      RunKeepsInv(states, steps, j - 1);
      OnlyTheOwnerFrees(states[j - 1], steps[j - 1], k);
    }
  }

  /** What an activation that is over leaves behind: its key stays taken exactly
      when it ended in one of the two unguarded awaits. */
  lemma OverHoldsExactlyWhenLeaked(s: State, i: nat)
    requires Inv(s) && i < |s.procs| && Over(s.procs[i].pc)
    ensures Leaked(s.procs[i].pc) <==> Holding(s.procs[i].pc)
    ensures Leaked(s.procs[i].pc) ==> s.procs[i].key in s.active && s.active[s.procs[i].key].owner == i
    ensures !Leaked(s.procs[i].pc) ==> forall k <- s.active :: s.active[k].owner != i
  {
    if Leaked(s.procs[i].pc) {
      assert Holds(s, i);
    }
    forall k | k in s.active
      ensures !Leaked(s.procs[i].pc) ==> s.active[k].owner != i
    {
      assert OwnedByHolder(s, k);
    }
  }

  /** The two awaits are the head lookup of a review and the cleanup of a
      refinement; each leaks exactly when it rejects. */
  lemma LeaksExactlyOnTheseThrows(s: State, i: nat, a: Answer)
    requires i < |s.procs| && !Leaked(s.procs[i].pc)
    ensures Leaked(Next(s, Resume(i, a)).procs[i].pc) <==> a.Throw? && Unguarded(s.procs[i].pc)
  {
    ResumedFits(s, s.procs[i], a);
  }

  lemma LeakedStays(s: State, step: Step, p: nat)
    requires Enabled(s, step) && p < |s.procs| && Leaked(s.procs[p].pc)
    ensures var s' := Next(s, step);
      p < |s'.procs| && s'.procs[p].pc == s.procs[p].pc && s'.procs[p].key == s.procs[p].key
  {
    if step.Resume? && step.pid == p {
      assert Resumed(s, s.procs[p], step.answer) == Goto(s.procs[p].pc);
    }
  }

  /** A leaked key is never admitted again. */
  lemma {:induction false} LeakIsForever(states: seq<State>, steps: seq<Step>, p: nat, i: nat, j: nat)
    requires IsRun(states, steps) && i <= j < |states|
    requires p < |states[i].procs| && Leaked(states[i].procs[p].pc)
    ensures p < |states[j].procs| && states[j].procs[p].pc == states[i].procs[p].pc && states[j].procs[p].key == states[i].procs[p].key
    ensures states[i].procs[p].key in states[j].active && states[j].active[states[i].procs[p].key].owner == p
  {
    hide Next, Enabled;
    RunKeepsInv(states, steps, j);
    if i < j {
      LeakIsForever(states, steps, p, i, j - 1);
      LeakedStays(states[j - 1], steps[j - 1], p);
    }
    assert Holds(states[j], p);
  }

  /** The conflict fix and the automatic rebase look before they register, in
      the same stretch of code: their register call never returns null. */
  lemma LookingFirstIsNeverRefused(s: State, i: nat, a: Answer)
    requires i < |s.procs| && (s.procs[i].pc.InFix? || s.procs[i].pc.InAuto?)
    ensures Resumed(s, s.procs[i], a).Admit? ==>
      s.procs[i].key !in s.active && Holding(Next(s, Resume(i, a)).procs[i].pc)
  {
  }

  /** A reported steer reaches a worker exactly when a run or a review holds the
      key; a refinement, conflict fix or rebase accepts the message and drops it. */
  lemma SteerReachesAWorkerExactly(s: State, k: Key, accepted: bool)
    requires Inv(s) && SteerReported(s, k, accepted)
    ensures var o := s.active[k].owner; var s' := Next(s, Steer(k, accepted));
      && o < |s.procs| && Holding(s.procs[o].pc) && s.procs[o].key == k
      && (s'.procs[o].heard == s.procs[o].heard + 1 <==> s.procs[o].pc.InRun? || s.procs[o].pc.InReview?)
      && (s' == s <==> s.procs[o].pc.InRefine? || s.procs[o].pc.InFix? || s.procs[o].pc.InAuto?)
  {
    assert OwnedByHolder(s, k);
    assert Holds(s, s.active[k].owner);
  }

  /** A cancel reaches the abort signal of exactly the key's owner, and only a run
      or a review has one. */
  lemma CancelAbortsTheOwner(s: State, k: Key)
    requires Inv(s)
    ensures var s' := Next(s, Cancel(k));
      && s'.active == s.active && |s'.procs| == |s.procs|
      && (forall i | 0 <= i < |s.procs| :: s'.procs[i].aborted ==
           (s.procs[i].aborted || (Holding(s.procs[i].pc) && s.procs[i].key == k && Wired(s.procs[i].pc))))
  {
    if k in s.active {
      assert OwnedByHolder(s, k);
    }
    forall i | 0 <= i < |s.procs| && Holding(s.procs[i].pc)
      ensures s.procs[i].key == k ==> k in s.active && s.active[k].owner == i
    {
      assert Holds(s, i);
    }
    if k in s.active {
      assert Holds(s, s.active[k].owner);
    }
  }

  // ----------------------------------------------------- who gets in and out

  /** The handler is about to register: a run at once, the others when the event has passed
      every test they make before. */
  predicate AtTheDoor(s: State, pc: Pc, a: Answer) {
    match pc
    case InRun(r) => r == Start
    case InReview(r) => r == Fetching && !a.Throw? && !a.Stop? && !s.draining
    case InRefine(r) => r == Checking && a.Proceed?
    case InFix(f) => f == Mapping && a.Proceed?
    case InAuto(u) => u == AutoPc.Polling && a.Proceed?
  }

  /** A handler outside the section enters it exactly when it is at the door and the key is
      free, and then the key is taken in its name. */
  lemma EntersExactlyWhenFree(s: State, p: nat, a: Answer)
    requires p < |s.procs| && !Holding(s.procs[p].pc)
    ensures var s' := Next(s, Resume(p, a)); var key := s.procs[p].key;
      && (Holding(s'.procs[p].pc) <==> AtTheDoor(s, s.procs[p].pc, a) && key !in s.active)
      && (Holding(s'.procs[p].pc) ==> key in s'.active && s'.active[key].owner == p && s'.procs[p].key == key)
      && (Holding(s'.procs[p].pc) && s.procs[p].pc.InReview? ==> key in s'.reviewing)
      && (Holding(s'.procs[p].pc) && s.procs[p].pc.InRefine? ==> key in s'.refining)
  {
    EntryPoints(s, p, a);
  }

  lemma EntryPoints(s: State, p: nat, a: Answer)
    requires p < |s.procs| && !Holding(s.procs[p].pc)
    ensures var m := Resumed(s, s.procs[p], a);
      && (s.procs[p].key !in s.active ==> (m.Admit? <==> AtTheDoor(s, s.procs[p].pc, a)))
      && (m.Admit? ==> AtTheDoor(s, s.procs[p].pc, a) && Holding(m.admitted) && !Holding(m.refused))
      && !m.Leave? && (m.Goto? ==> !Holding(m.pc))
  {
    ResumedFits(s, s.procs[p], a);
  }

  /** What a handler's own step does to the two in-flight sets: a review's mark comes when it
      registers, refused or not, and goes when it is over; a refinement's comes when it is
      admitted and goes when it is refused or leaves. */
  lemma OwnStepMarks(s: State, p: nat, a: Answer)
    requires p < |s.procs|
    ensures var s' := Next(s, Resume(p, a)); var key, before, after := s.procs[p].key, s.procs[p].pc, Target(s, p, a);
      && s'.reviewing == (if ReviewMarked(before) == ReviewMarked(after) then s.reviewing
                          else if ReviewMarked(after) then s.reviewing + {key} else s.reviewing - {key})
      && s'.refining == (if !before.InRefine? then s.refining
                         else if !Holding(before) && Holding(after) then s.refining + {key}
                         else if Holding(before) && !Holding(after) then s.refining - {key}
                         else if AtTheDoor(s, before, a) then s.refining - {key} else s.refining)
  {
    ResumedFits(s, s.procs[p], a);
    if !Holding(s.procs[p].pc) {
      EntryPoints(s, p, a);
    } else {
      ExitPoints(s, p, a);
    }
    hide Resumed;
  }

  /** While the service drains, and until somebody ends that, no review gets in and a manual
      fix that comes in is declined. */
  lemma {:induction false} DrainingKeepsOut(states: seq<State>, steps: seq<Step>, i: nat, j: nat, p: nat)
    requires IsRun(states, steps) && i < j < |steps| && steps[i] == SetDraining(true)
    requires forall m | i < m < j :: !steps[m].SetDraining?
    requires p < |states[j].procs| && steps[j].Resume? && steps[j].pid == p && !Holding(states[j].procs[p].pc)
    ensures states[j].procs[p].pc.InReview? ==> !Holding(states[j + 1].procs[p].pc)
    ensures states[j].procs[p].pc == InFix(Admitting) ==> states[j + 1].procs[p].pc in {InFix(Declining), InFix(FixOver)}
  {
    DrainingStays(states, steps, i, j);
    EntersExactlyWhenFree(states[j], p, steps[j].answer);
  }

  lemma {:induction false} DrainingStays(states: seq<State>, steps: seq<Step>, i: nat, j: nat)
    requires IsRun(states, steps) && i < j < |states| && steps[i].SetDraining?
    requires forall m | i < m < j :: !steps[m].SetDraining?
    ensures states[j].draining == steps[i].value
  {
    if i + 1 < j {
      DrainingStays(states, steps, i, j - 1);
    }
  }

  /** The handler's last block is over: for a run the winding down or the report of its end,
      for a review its worker, for a refinement its cleanup, or, when it never opened a
      session, its error report. */
  predicate IsDone(pc: Pc, a: Answer) {
    match pc
    case InRun(r) =>
      if r in {Blocked, Cancelling, SelfReporting, Failing, Reporting} then !a.Again?
      else (r == Preparing && a.Throw?) || (r == Rereading && (a.Stop? || a.Throw?)) || (r == Delivering && !a.Again? && !a.Worker?)
    case InReview(r) => (r == Reviewing && !a.Throw?) || (r in {Aborting, Recovering} && !a.Again?)
    case InRefine(r) => (r == Catching(false) && !a.Again?) || (r == Cleaning && !a.Again? && !a.Throw?)
    case InFix(f) => (f == Fixing && !a.Again? && !a.Worker?) || (f == FixReworking && a.Throw?)
    case InAuto(u) => (u == Rebasing && !a.Again? && !a.Worker?) || (u == AutoReworking && a.Throw?)
  }

  /** A handler inside the section leaves it exactly then, and the key is free again. */
  lemma LeavesExactlyWhenDone(s: State, p: nat, a: Answer)
    requires Inv(s) && p < |s.procs| && Holding(s.procs[p].pc)
    ensures var s' := Next(s, Resume(p, a));
      && (!Holding(s'.procs[p].pc) <==> IsDone(s.procs[p].pc, a))
      && (!Holding(s'.procs[p].pc) <==> s.procs[p].key !in s'.active)
      && (!Holding(s'.procs[p].pc) && s.procs[p].pc.InRefine? ==> s.procs[p].key !in s'.refining)
  {
    ExitPoints(s, p, a);
    assert Holds(s, p);
    if Resumed(s, s.procs[p], a).Leave? {
      ResumedFits(s, s.procs[p], a);
      LeftKeepsInv(s, p, Resumed(s, s.procs[p], a).pc);
    }
  }

  lemma ExitPoints(s: State, p: nat, a: Answer)
    requires p < |s.procs| && Holding(s.procs[p].pc)
    ensures var m := Resumed(s, s.procs[p], a);
      && (m.Leave? <==> IsDone(s.procs[p].pc, a)) && !m.Admit?
      && (m.Leave? ==> !Holding(m.pc)) && (m.Goto? ==> Holding(m.pc))
  {
    ResumedFits(s, s.procs[p], a);
  }

  /** The await that a worker's start ends. */
  predicate StartsAWorker(pc: Pc, a: Answer) {
    || (pc == InRun(Starting) && !a.Throw?)
    || (a.Worker? && pc in {InRun(Delivering), InReview(Readying), InRefine(Running), InFix(Fixing), InAuto(Rebasing)})
  }

  /** Workers start exactly there, and the one await of a worker ends with it. */
  lemma WorkersStartExactly(s: State, p: nat, a: Answer)
    requires p < |s.procs|
    ensures WorkerRunning(Target(s, p, a)) <==> StartsAWorker(s.procs[p].pc, a)
  {
    hide Moved;
  }

  /** What a run goes through while it holds its key: a session that may not start is reported
      as blocked, one that may is started; a result is delivered, reworked as often as the
      delivery asks, or reported. In a block of several awaits `Again` stays there. */
  lemma RunGoesOn(s: State, p: nat, a: Answer)
    requires p < |s.procs| && s.procs[p].pc.InRun?
    ensures var before, after := s.procs[p].pc.run, Target(s, p, a);
      && (before == Start && s.procs[p].key in s.active ==> after == InRun(if a.Proceed? then Steering else RunOver))
      && (a.Again? && before in {Preparing, Blocked, Cancelling, SelfReporting, Failing, Rereading, Delivering, Reporting} ==> after == InRun(before))
      && (before == Preparing ==> (after == InRun(Blocked) <==> a.Stop?) && (after == InRun(Starting) <==> a.Proceed? || a.Worker?))
      && (before == Stamping(None) && !a.Throw? ==> after == InRun(Rereading))
      && (before == Rereading ==> (after == InRun(Delivering) <==> a.Worker?) && (after == InRun(Reporting) <==> a.Proceed?))
      && (before == Reworking ==> after == InRun(Delivering))
      && (before == RunOver || before == Steering ==> after == InRun(RunOver))
  {
  }

  /** What a review goes through: it replies instead of entering when it is turned away or the
      service is draining, looks up the head, readies the tree, and posts when its worker is
      done; whatever rejects before that is wound down, but for the head lookup. */
  lemma ReviewGoesOn(s: State, p: nat, a: Answer)
    requires p < |s.procs| && s.procs[p].pc.InReview?
    ensures var key := s.procs[p].key; var before, after := s.procs[p].pc.review, Target(s, p, a);
      && (before == Resolving ==> after == InReview(if a.Proceed? && key !in s.reviewing then Fetching else ReviewOver))
      && (before == Fetching ==>
            && (after == InReview(ReviewOver) <==> a.Throw?)
            && (after == InReview(Replying) <==> !a.Throw? && (a.Stop? || s.draining))
            && (after == InReview(Refused) <==> AtTheDoor(s, s.procs[p].pc, a) && key in s.active)
            && (after == InReview(Heading) <==> AtTheDoor(s, s.procs[p].pc, a) && key !in s.active))
      && (before == Heading && !a.Throw? ==> after == InReview(Readying))
      && (before == Readying && !a.Throw? && !a.Worker? ==> after == InReview(Readying))
      && (before in {Readying, Reviewing} && a.Throw? ==> WindingDown(after))
      && (before == Reviewing && !a.Throw? ==> after == InReview(Posting))
      && (before in {Replying, Refused, Aborting, Recovering, Posting} ==> after == InReview(if a.Again? then before else ReviewOver))
      && (before in {ReviewOver, ReviewLeaked} ==> after == InReview(before))
  {
  }

  /** What a refinement goes through: from the opening of its session on every end, by an error
      or not, is followed by the cleanup and the removal of its label. */
  lemma RefinementGoesOn(s: State, p: nat, a: Answer)
    requires p < |s.procs| && s.procs[p].pc.InRefine?
    ensures var key := s.procs[p].key; var before, after := s.procs[p].pc.refine, Target(s, p, a);
      && (before == Authorizing ==> after == InRefine(if a.Proceed? && key !in s.refining && key !in s.active then Checking else RefineOver))
      && (before == Checking ==>
            after == InRefine(if a.Again? then Checking else if a.Proceed? && key !in s.active then Opening else RefineOver))
      && (before == Opening ==> after == InRefine(if a.Again? then Opening else if a.Throw? then Catching(false) else Running))
      && (before == Running && (a.Stop? || a.Proceed?) ==> after == InRefine(Cleaning))
      && ((before == Running && a.Again?) || (before == Refining && !a.Throw?) ==> after == InRefine(Running))
      && (before in {Running, Refining} && a.Throw? ==> after == InRefine(Catching(true)))
      && (before == Catching(true) ==> after == InRefine(if a.Again? then Catching(true) else Cleaning))
      && (before == Catching(false) ==> after == InRefine(if a.Again? then Catching(false) else RefineOver))
      && (before == Cleaning && !a.Throw? ==> after == InRefine(if a.Again? then Cleaning else Removing))
      && (before in {Removing, RefineOver} ==> after == InRefine(RefineOver))
  {
  }

  /** What the two conflict handlers go through: the manual fix declines what it does not take
      on; the rebase goes to its next candidate instead. */
  lemma FixGoesOn(s: State, p: nat, a: Answer)
    requires p < |s.procs| && s.procs[p].pc.InFix?
    ensures var key := s.procs[p].key; var before, after := s.procs[p].pc.fix, Target(s, p, a);
      && (before == Admitting ==>
            after == InFix(if a.Throw? then FixOver else if a.Stop? || s.draining then Declining else Mapping))
      && (before == Mapping ==>
            after == InFix(if a.Again? then Mapping else if a.Throw? then FixOver else if a.Proceed? && key !in s.active then Fixing else Declining))
      && ((before == Fixing && a.Again?) || (before == FixReworking && !a.Throw?) ==> after == InFix(Fixing))
      && (IsDone(InFix(before), a) || before in {Declining, FixOver} ==> after == InFix(FixOver))
  {
  }

  lemma RebaseGoesOn(s: State, p: nat, a: Answer)
    requires p < |s.procs| && s.procs[p].pc.InAuto?
    ensures var key := s.procs[p].key; var before, after := s.procs[p].pc.auto, Target(s, p, a);
      && (before == Listing ==> after == InAuto(if a.Again? then Listing else if a.Proceed? then AutoPc.Polling else AutoOver))
      && (before == AutoPc.Polling ==>
            after == InAuto(if a.Again? then AutoPc.Polling else if a.Proceed? && key !in s.active then Rebasing else NextCandidate))
      && ((before == Rebasing && a.Again?) || (before == AutoReworking && !a.Throw?) ==> after == InAuto(Rebasing))
      && (IsDone(InAuto(before), a) ==> after == InAuto(NextCandidate))
      && (before == AutoOver ==> after == InAuto(AutoOver))
  {
  }

  /** A rebase visits its candidates in order: past one, it takes up the next or is over. */
  lemma NextCandidateIsTakenUp(p: Process)
    ensures var after := Moved(p, InAuto(NextCandidate));
      if p.rest == [] then after == p.(pc := InAuto(AutoOver))
      else [after.key] + after.rest == p.rest && after == p.(pc := InAuto(AutoPc.Polling), key := after.key, rest := after.rest)
  {
  }

  // ------------------------------------------------- how failures wind down

  /** The blocks that deal with a rejection of a run or a review. */
  predicate WindingDown(pc: Pc) {
    match pc
    case InRun(r) => r.Cancelling? || r.SelfReporting? || r.Failing?
    case InReview(r) => r.Aborting? || r.Recovering?
    case _ => false
  }

  predicate AsCancelled(pc: Pc) {
    pc == InRun(Cancelling) || pc == InReview(Aborting)
  }

  /** The rejection being dealt with is a fatal one: that of the await itself or, when the
      stamping went well, that of the executor before it. */
  predicate FatalRejection(pc: RunPc, a: Answer) {
    if a.Throw? then a.fatal else pc == Stamping(Some(true))
  }

  lemma OthersLeaveItAlone(s: State, step: Step, p: nat)
    requires Enabled(s, step) && p < |s.procs| && !(step.Resume? && step.pid == p)
    ensures p < |Next(s, step).procs| && Next(s, step).procs[p].pc == s.procs[p].pc && Next(s, step).procs[p].key == s.procs[p].key
  {
    hide Resumed;
  }

  /** Where a handler's own step takes it. */
  function Target(s: State, p: nat, a: Answer): Pc
    requires p < |s.procs|
  {
    match Resumed(s, s.procs[p], a)
    case Goto(pc) => pc
    case Admit(admitted, refused) => if s.procs[p].key in s.active then refused else admitted
    case Leave(pc) => pc
  }

  lemma OwnStep(s: State, p: nat, a: Answer)
    requires p < |s.procs|
    ensures var before, after := s.procs[p], Next(s, Resume(p, a)).procs[p];
      && |Next(s, Resume(p, a)).procs| == |s.procs| && after.aborted == before.aborted
      && (!Target(s, p, a).InAuto? ==> after.pc == Target(s, p, a) && after.key == before.key)
      && (Target(s, p, a).InAuto? ==> after.pc.InAuto?)
  {
    hide Resumed;
  }

  lemma OwnProgram(s: State, p: nat, a: Answer)
    requires p < |s.procs|
    ensures var pc, target := s.procs[p].pc, Target(s, p, a);
      && (pc.InRun? <==> target.InRun?) && (pc.InReview? <==> target.InReview?) && (pc.InAuto? <==> target.InAuto?)
      && (WindingDown(pc) ==> target == pc || Over(target))
  {
    hide ResumeRefine, ResumeFix, ResumeAuto;
  }

  /** A handler starts to wind down only by its own step, as cancelled exactly when its
      signal is aborted by then; otherwise a run reports itself exactly for a fatal error. */
  lemma WindsDownByTheSignal(s: State, step: Step, p: nat)
    requires Enabled(s, step) && p < |s.procs|
    requires !WindingDown(s.procs[p].pc) && WindingDown(Next(s, step).procs[p].pc)
    ensures var before, after := s.procs[p], Next(s, step).procs[p];
      && step.Resume? && step.pid == p
      && (AsCancelled(after.pc) <==> before.aborted)
      && (before.pc.InRun? ==> (after.pc == InRun(SelfReporting) <==> !before.aborted && FatalRejection(before.pc.run, step.answer)))
      && (before.pc.InRun? ==> (after.pc == InRun(Failing) <==> !before.aborted && !FatalRejection(before.pc.run, step.answer)))
      && (step.answer.Throw? || (before.pc.InRun? && before.pc.run.Stamping? && before.pc.run.error.Some?))
  {
    hide Next, Enabled;
    if !(step.Resume? && step.pid == p) {
      OthersLeaveItAlone(s, step, p);
    } else {
      OwnStep(s, p, step.answer);
      OwnProgram(s, p, step.answer);
      hide ResumeRefine, ResumeFix, ResumeAuto;
    }
  }

  /** A step changes whether a handler is aborted only by a cancel of the key it holds. */
  lemma SignalStays(s: State, step: Step, p: nat)
    requires Inv(s) && Enabled(s, step) && p < |s.procs|
    ensures p < |Next(s, step).procs|
    ensures Next(s, step).procs[p].aborted <==> s.procs[p].aborted || CancelledAt(s, step, p)
  {
    match step
    case Cancel(key) => CancelAbortsTheOwner(s, key);
    case Resume(i, a) => OwnStep(s, i, a);
    case _ =>
  }

  /** The step cancels the key the handler holds, and the handler listens. */
  predicate CancelledAt(s: State, step: Step, p: nat) {
    p < |s.procs| && Holding(s.procs[p].pc) && Wired(s.procs[p].pc) && step == Cancel(s.procs[p].key)
  }

  lemma {:induction false} ProcessesStay(states: seq<State>, steps: seq<Step>, i: nat, j: nat)
    requires IsRun(states, steps) && i <= j < |states|
    ensures |states[i].procs| <= |states[j].procs|
  {
    if i < j {
      ProcessesStay(states, steps, i, j - 1);
    }
  }

  lemma NotThereBefore(states: seq<State>, steps: seq<Step>, p: nat, n: nat)
    requires IsRun(states, steps) && 0 < n < |states| && |states[n - 1].procs| <= p < |states[n].procs|
    ensures !states[n].procs[p].aborted
    ensures forall i | 0 <= i < n :: !CancelledAt(states[i], steps[i], p)
  {
    hide Resumed;
    forall i | 0 <= i < n
      ensures !CancelledAt(states[i], steps[i], p)
    {
      ProcessesStay(states, steps, i, n - 1);
    }
  }

  /** Aborted means cancelled while holding the key. */
  lemma {:induction false} AbortedExactlyWhenCancelled(states: seq<State>, steps: seq<Step>, p: nat, n: nat)
    requires IsRun(states, steps) && n < |states| && p < |states[n].procs|
    ensures states[n].procs[p].aborted <==> exists i :: 0 <= i < n && CancelledAt(states[i], steps[i], p)
  {
    hide Next, Enabled, CancelledAt, Inv;
    if n > 0 {
      RunKeepsInv(states, steps, n - 1);
      if p < |states[n - 1].procs| {
        AbortedExactlyWhenCancelled(states, steps, p, n - 1);
        SignalStays(states[n - 1], steps[n - 1], p);
      } else {
        NotThereBefore(states, steps, p, n);
      }
    }
  }

  /** In every interleaving a handler that starts to wind down does so as cancelled exactly
      when somebody cancelled its key while it held it. */
  lemma WindsDownAsCancelledExactly(states: seq<State>, steps: seq<Step>, p: nat, n: nat)
    requires IsRun(states, steps) && n < |steps| && p < |states[n].procs|
    requires !WindingDown(states[n].procs[p].pc) && p < |states[n + 1].procs| && WindingDown(states[n + 1].procs[p].pc)
    ensures AsCancelled(states[n + 1].procs[p].pc) <==> exists i :: 0 <= i < n && CancelledAt(states[i], steps[i], p)
  {
    hide Next, Enabled, CancelledAt;
    AbortedExactlyWhenCancelled(states, steps, p, n);
    WindsDownByTheSignal(states[n], steps[n], p);
  }

  // ------------------------------------------------- what the executor decides

  /** Step `i` of the run is the end of the executor's call for `p`. */
  predicate ExecutorEnds(states: seq<State>, steps: seq<Step>, p: nat, i: nat)
    requires |states| == |steps| + 1
  {
    i < |steps| && p < |states[i].procs| && states[i].procs[p].pc == InRun(Executing) && steps[i].Resume? && steps[i].pid == p
  }

  /** Step `i` is the rejection of the status update after the executor's call for `p`. */
  predicate StampingFails(states: seq<State>, steps: seq<Step>, p: nat, i: nat)
    requires |states| == |steps| + 1
  {
    i < |steps| && p < |states[i].procs| && states[i].procs[p].pc.InRun? && states[i].procs[p].pc.run.Stamping?
    && steps[i].Resume? && steps[i].pid == p && steps[i].answer.Throw?
  }

  predicate AfterCompletion(pc: Pc) {
    pc.InRun? && (pc.run == Stamping(None) || pc.run.Rereading? || pc.run.Delivering? || pc.run.Reworking? || pc.run.Reporting? || pc.run.RunOver?)
  }

  predicate AfterRejection(pc: Pc, fatal: bool) {
    pc.InRun? && (pc.run == Stamping(Some(fatal)) || WindingDown(pc) || pc.run.RunOver?)
  }

  /** A step of a run after the executor's call. */
  lemma AfterTheExecutor(s: State, step: Step, p: nat)
    requires Enabled(s, step) && p < |s.procs| && s.procs[p].pc.InRun?
    ensures p < |Next(s, step).procs|
    ensures var pc, after := s.procs[p].pc, Next(s, step).procs[p].pc;
      && (!(step.Resume? && step.pid == p) ==> after == pc)
      && (pc.run.Executing? && step.Resume? && step.pid == p ==>
            after == InRun(Stamping(if step.answer.Throw? then Some(step.answer.fatal) else None)))
      && (forall fatal :: AfterRejection(pc, fatal) ==> AfterRejection(after, fatal))
      && (AfterCompletion(after) && !AfterCompletion(pc) ==> Over(after) || pc.run.Executing?)
      && (AfterCompletion(pc) && !AfterCompletion(after) ==> pc.run.Stamping? && step.answer.Throw? && WindingDown(after))
  {
    hide Next, Enabled;
    if !(step.Resume? && step.pid == p) {
      OthersLeaveItAlone(s, step, p);
    } else {
      OwnStep(s, p, step.answer);
    }
  }

  /** Whatever happens after the executor has rejected, the run only stamps the session, winds
      down and ends: nothing is delivered or reported as a result. */
  lemma {:induction false} RejectedRunWindsDown(states: seq<State>, steps: seq<Step>, p: nat, i: nat, n: nat)
    requires IsRun(states, steps) && i < n < |states|
    requires ExecutorEnds(states, steps, p, i) && steps[i].answer.Throw?
    ensures p < |states[n].procs| && AfterRejection(states[n].procs[p].pc, steps[i].answer.fatal)
  {
    hide Next, Enabled;
    if i + 1 < n {
      RejectedRunWindsDown(states, steps, p, i, n - 1);
    }
    AfterTheExecutor(states[n - 1], steps[n - 1], p);
  }

  /** After the executor has completed a run winds down only when stamping the session fails. */
  lemma {:induction false} CompletedRunGoesOn(states: seq<State>, steps: seq<Step>, p: nat, i: nat, n: nat)
    requires IsRun(states, steps) && i < n < |states|
    requires ExecutorEnds(states, steps, p, i) && !steps[i].answer.Throw?
    requires forall j | i < j < n :: !StampingFails(states, steps, p, j)
    ensures p < |states[n].procs| && AfterCompletion(states[n].procs[p].pc)
  {
    hide Next, Enabled;
    if i + 1 < n {
      CompletedRunGoesOn(states, steps, p, i, n - 1);
      assert !StampingFails(states, steps, p, n - 1);
    }
    AfterTheExecutor(states[n - 1], steps[n - 1], p);
  }

  /** What a run delivers or reports is the result of an executor that completed. */
  lemma {:induction false} ResultsComeFromTheExecutor(states: seq<State>, steps: seq<Step>, p: nat, n: nat)
    requires IsRun(states, steps) && n < |states| && p < |states[n].procs|
    requires AfterCompletion(states[n].procs[p].pc) && !Over(states[n].procs[p].pc)
    ensures exists i :: 0 <= i < n && ExecutorEnds(states, steps, p, i) && !steps[i].answer.Throw?
  {
    SpawnedAtTheStart(states[n - 1], steps[n - 1], p);
    hide Next, Enabled;
    AfterTheExecutor(states[n - 1], steps[n - 1], p);
    if AfterCompletion(states[n - 1].procs[p].pc) {
      ResultsComeFromTheExecutor(states, steps, p, n - 1);
    } else {
      assert ExecutorEnds(states, steps, p, n - 1);
    }
  }

  /** A run that is past its start was there before the step. */
  lemma SpawnedAtTheStart(s: State, step: Step, p: nat)
    requires Enabled(s, step) && p < |Next(s, step).procs| && Next(s, step).procs[p].pc !in ENTRIES
    ensures p < |s.procs| && (s.procs[p].pc.InRun? <==> Next(s, step).procs[p].pc.InRun?)
  {
    if p < |s.procs| {
      hide Resumed;
      if step.Resume? && step.pid == p {
        OwnStep(s, p, step.answer);
        OwnProgram(s, p, step.answer);
      } else {
        OthersLeaveItAlone(s, step, p);
      }
    }
  }

  // ------------------------------------------------- the two in-flight sets

  predicate ReviewMarkOwned(s: State, k: Key) {
    exists i :: 0 <= i < |s.procs| && s.procs[i].key == k && ReviewMarked(s.procs[i].pc)
  }

  predicate RefineMarkOwned(s: State, k: Key) {
    exists i :: 0 <= i < |s.procs| && s.procs[i].key == k && s.procs[i].pc.InRefine? && Holding(s.procs[i].pc)
  }

  /** Two reviews of one issue, from arrival to the refusal of the second. */
  function RaceState(k: Key, n: nat): State {
    var p := Process(k, [], InReview(Resolving), None, false, 0);
    var q := p.(pc := InReview(Fetching));
    var held := p.(pc := InReview(Heading), token := Some(0));
    var taken := map[k := Task(0, 0, true, LiveSession)];
    match n
    case 0 => INITIAL
    case 1 => INITIAL.(procs := [p])
    case 2 => INITIAL.(procs := [p, p])
    case 3 => INITIAL.(procs := [q, p])
    case 4 => INITIAL.(procs := [q, q])
    case 5 => State(taken, 1, false, {k}, {}, [held, q])
    case 6 => State(taken, 1, false, {k}, {}, [held, q.(pc := InReview(Refused))])
    case _ => State(taken, 1, false, {}, {}, [held, q.(pc := InReview(ReviewOver))])
  }

  function RaceStep(k: Key, n: nat): Step {
    if n < 2 then Spawn(InReview(Resolving), k, [])
    else if n == 2 || n == 4 then Resume(0, Proceed)
    else Resume(1, Proceed)
  }

  lemma RaceArrives(k: Key, n: nat)
    requires n < 4
    ensures Enabled(RaceState(k, n), RaceStep(k, n)) && Next(RaceState(k, n), RaceStep(k, n)) == RaceState(k, n + 1)
  {
    if n == 0 {
    } else if n == 1 {
    } else if n == 2 {
    } else {
    }
  }

  lemma RaceCollides(k: Key, n: nat)
    requires 4 <= n < 7
    ensures Enabled(RaceState(k, n), RaceStep(k, n)) && Next(RaceState(k, n), RaceStep(k, n)) == RaceState(k, n + 1)
  {
    if n == 4 {
    } else if n == 5 {
    } else {
      assert {k} - {k} == {};
    }
  }

  /** The marks do not exclude anybody by themselves. Two reviews of one issue
      that both passed the test before either set the mark share it, and the
      refused one takes it away from the admitted one; only the registry keeps
      them apart. */
  lemma RefusedReviewDropsTheMark(k: Key)
    ensures var states := seq(8, n requires n >= 0 => RaceState(k, n)); var steps := seq(7, n requires n >= 0 => RaceStep(k, n));
      && IsRun(states, steps)
      && states[7].procs[0].key == k && ReviewMarked(states[7].procs[0].pc) && k !in states[7].reviewing
  {
    forall n | 0 <= n < 7
      ensures Enabled(RaceState(k, n), RaceStep(k, n)) && Next(RaceState(k, n), RaceStep(k, n)) == RaceState(k, n + 1)
    {
      if n < 4 { RaceArrives(k, n); } else { RaceCollides(k, n); }
    }
  }

  lemma StepKeepsReviewMark(s: State, step: Step, k: Key)
    requires Enabled(s, step) && (k in s.reviewing ==> ReviewMarkOwned(s, k))
    ensures var s' := Next(s, step); k in s'.reviewing ==> ReviewMarkOwned(s', k)
  {
    var s' := Next(s, step);
    if step.Resume? {
      ResumedFits(s, s.procs[step.pid], step.answer);
    }
    if k in s'.reviewing {
      var moved := if step.Resume? then step.pid else |s.procs|;
      if j :| k in s.reviewing && 0 <= j < |s.procs| && j != moved && s.procs[j].key == k && ReviewMarked(s.procs[j].pc) {
        assert s'.procs[j].key == k && s'.procs[j].pc == s.procs[j].pc;
      } else {
        assert step.Resume? && s'.procs[step.pid].key == k && ReviewMarked(s'.procs[step.pid].pc);
      }
    }
  }

  lemma StepKeepsRefineMark(s: State, step: Step, k: Key)
    requires Enabled(s, step) && (k in s.refining ==> RefineMarkOwned(s, k))
    ensures var s' := Next(s, step); k in s'.refining ==> RefineMarkOwned(s', k)
  {
    var s' := Next(s, step);
    if step.Resume? {
      ResumedFits(s, s.procs[step.pid], step.answer);
    }
    if k in s'.refining {
      var moved := if step.Resume? then step.pid else |s.procs|;
      if j :| k in s.refining && 0 <= j < |s.procs| && j != moved && s.procs[j].key == k && s.procs[j].pc.InRefine? && Holding(s.procs[j].pc) {
        assert s'.procs[j].key == k && s'.procs[j].pc == s.procs[j].pc;
      } else {
        assert step.Resume? && s'.procs[step.pid].key == k && s'.procs[step.pid].pc.InRefine?;
      }
    }
  }

  /** No mark outlives the activations it stands for: a review mark belongs to a
      review past its test, a refinement mark to a refinement holding the key. */
  lemma {:induction false} NoMarkOutlivesItsActivation(states: seq<State>, steps: seq<Step>, n: nat)
    requires IsRun(states, steps) && n < |states|
    ensures forall k <- states[n].reviewing :: ReviewMarkOwned(states[n], k)
    ensures forall k <- states[n].refining :: RefineMarkOwned(states[n], k)
  {
    if n > 0 {
      NoMarkOutlivesItsActivation(states, steps, n - 1);
      forall k | k in states[n].reviewing
        ensures ReviewMarkOwned(states[n], k)
      {
        StepKeepsReviewMark(states[n - 1], steps[n - 1], k);
      }
      forall k | k in states[n].refining
        ensures RefineMarkOwned(states[n], k)
      {
        StepKeepsRefineMark(states[n - 1], steps[n - 1], k);
      }
    }
  }
}
