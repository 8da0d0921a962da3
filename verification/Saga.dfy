/**
 * Whole runs of one outer material owner.
 *
 * A body is a tree of service calls, joins of the owner, framework atomic
 * blocks (savepoints), handlers that swallow an exception, and exceptions of
 * its own. The owner then commits, is rejected, or loses the answer, and
 * recovers or cleans up accordingly.
 */
module Saga {
  import opened Prelude
  import opened Material

  datatype Stmt =
    | Call(ev: Event)
    | Join(body: seq<Stmt>)
    | Atomic(body: seq<Stmt>)
    | Try(body: seq<Stmt>)
    | Raise

  /** Savepoints are opened and closed by Atomic only. */
  predicate ServiceCall(ev: Event) {
    !ev.Mark? && !ev.Release? && !ev.Undo?
  }

  function Exec(s: Stmt, o: Owner, w: World): Turn
    decreases s, 1
  {
    match s
    case Call(ev) => if ServiceCall(ev) then Apply(ev, o, w) else Turn(o, w, false)
    case Join(body) =>
      var t := ExecAll(body, o, w);
      if t.raised then t.(owner := t.owner.(failed := true)) else t
    case Atomic(body) =>
      var t := ExecAll(body, Apply(Mark, o, w).owner, w);
      Apply(if t.raised then Undo else Release, t.owner, t.world).(raised := t.raised)
    case Try(body) => ExecAll(body, o, w).(raised := false)
    case Raise => Turn(o, w, true)
  }

  function ExecAll(ss: seq<Stmt>, o: Owner, w: World): Turn
    decreases ss, 0
  {
    if ss == [] then Turn(o, w, false)
    else
      var t := Exec(ss[0], o, w);
      if t.raised then t else ExecAll(ss[1..], t.owner, t.world)
  }

  /** What running any piece of a body keeps. */
  ghost predicate Good(o: Owner, w: World) {
    Honest(o) && Settled(o, w)
  }

  ghost predicate Leads(o: Owner, w: World, t: Turn) {
    && Extends(o, w, t.owner, t.world)
    && NoRevival(o, w, t.owner)
    && t.owner.savepoints == o.savepoints
    && t.owner.path == o.path
    && Good(t.owner, t.world)
  }

  lemma LeadsTransitive(o: Owner, w: World, t: Turn, u: Turn)
    requires Leads(o, w, t) && Leads(t.owner, t.world, u)
    ensures Leads(o, w, u)
  {
  }

  lemma StepLeads(ev: Event, o: Owner, w: World)
    requires Good(o, w) && ServiceCall(ev)
    ensures Leads(o, w, Apply(ev, o, w))
  {
    HonestStep(ev, o, w);
    SettledStep(ev, o, w);
    ExtendsStep(ev, o, w);
    NoRevivalStep(ev, o, w);
  }

  lemma AtomicLeads(o: Owner, w: World, t: Turn)
    requires Good(o, w)
    requires Leads(Apply(Mark, o, w).owner, w, t)
    ensures Leads(o, w, Apply(if t.raised then Undo else Release, t.owner, t.world).(raised := t.raised))
  {
    var close := if t.raised then Undo else Release;
    HonestStep(close, t.owner, t.world);
    SettledStep(close, t.owner, t.world);
    assert DropLast(o.savepoints + [o.now]) == o.savepoints;
  }

  lemma {:induction false} ExecLeads(s: Stmt, o: Owner, w: World)
    requires Good(o, w)
    ensures Leads(o, w, Exec(s, o, w))
    decreases s, 1
  {
    match s
    case Call(ev) =>
      if ServiceCall(ev) {
        StepLeads(ev, o, w);
      }
    case Join(body) => ExecAllLeads(body, o, w);
    case Atomic(body) =>
      HonestStep(Mark, o, w);
      SettledStep(Mark, o, w);
      ExecAllLeads(body, Apply(Mark, o, w).owner, w);
      AtomicLeads(o, w, ExecAll(body, Apply(Mark, o, w).owner, w));
    case Try(body) => ExecAllLeads(body, o, w);
    case Raise =>
  }

  lemma {:induction false} ExecAllLeads(ss: seq<Stmt>, o: Owner, w: World)
    requires Good(o, w)
    ensures Leads(o, w, ExecAll(ss, o, w))
    decreases ss, 0
  {
    if ss != [] {
      var t := Exec(ss[0], o, w);
      ExecLeads(ss[0], o, w);
      if !t.raised {
        ExecAllLeads(ss[1..], t.owner, t.world);
        LeadsTransitive(o, w, t, ExecAll(ss[1..], t.owner, t.world));
      }
    }
  }

  // ------------------------------------------------------------------
  // What the pieces of a body mean
  // ------------------------------------------------------------------

  function Below(base: seq<Snapshot>, o: Owner): Owner {
    o.(savepoints := base + o.savepoints)
  }

  lemma StepBelow(ev: Event, base: seq<Snapshot>, o: Owner, w: World)
    requires (ev.Release? || ev.Undo?) ==> o.savepoints != []
    ensures var t := Apply(ev, o, w); Apply(ev, Below(base, o), w) == Turn(Below(base, t.owner), t.world, t.raised)
  {
    if ev.Mark? {
      assert base + o.savepoints + [o.now] == base + (o.savepoints + [o.now]);
    }
    if ev.Release? || ev.Undo? {
      assert DropLast(base + o.savepoints) == base + DropLast(o.savepoints);
    }
  }

  /** No piece of a body looks below its own savepoints. */
  lemma {:induction false} ExecBelow(s: Stmt, base: seq<Snapshot>, o: Owner, w: World)
    ensures var t := Exec(s, o, w);
            && t.owner.savepoints == o.savepoints
            && Exec(s, Below(base, o), w) == Turn(Below(base, t.owner), t.world, t.raised)
    decreases s, 1
  {
    match s
    case Call(ev) =>
      if ServiceCall(ev) {
        StepBelow(ev, base, o, w);
      }
    case Join(body) => ExecAllBelow(body, base, o, w);
    case Atomic(body) =>
      var marked := Apply(Mark, o, w).owner;
      StepBelow(Mark, base, o, w);
      ExecAllBelow(body, base, marked, w);
      var t := ExecAll(body, marked, w);
      StepBelow(if t.raised then Undo else Release, base, t.owner, t.world);
      assert DropLast(o.savepoints + [o.now]) == o.savepoints;
    case Try(body) => ExecAllBelow(body, base, o, w);
    case Raise =>
  }

  lemma {:induction false} ExecAllBelow(ss: seq<Stmt>, base: seq<Snapshot>, o: Owner, w: World)
    ensures var t := ExecAll(ss, o, w);
            && t.owner.savepoints == o.savepoints
            && ExecAll(ss, Below(base, o), w) == Turn(Below(base, t.owner), t.world, t.raised)
    decreases ss, 0
  {
    if ss != [] {
      var t := Exec(ss[0], o, w);
      ExecBelow(ss[0], base, o, w);
      if !t.raised {
        ExecAllBelow(ss[1..], base, t.owner, t.world);
      }
    }
  }

  /**
   * An atomic block that ends normally is its body; one left by an exception
   * puts the row and the audit rows back, and nothing else.
   */
  lemma AtomicIsBodyOrNothing(body: seq<Stmt>, o: Owner, w: World)
    ensures var t, u := Exec(Atomic(body), o, w), ExecAll(body, o, w);
            && (!u.raised ==> t == u)
            && (u.raised ==> t == Turn(u.owner.(now := o.now), u.world, true))
  {
    var base, bare := o.savepoints + [o.now], o.(savepoints := []);
    assert Below(base, bare) == Apply(Mark, o, w).owner && Below(o.savepoints, bare) == o;
    ExecAllBelow(body, base, bare, w);
    ExecAllBelow(body, o.savepoints, bare, w);
    assert base + [] == base && o.savepoints + [] == o.savepoints;
    assert DropLast(base) == o.savepoints && Last(base) == o.now;
  }

  /** Pieces run one after the other until one raises. */
  lemma {:induction false} ExecAllConcat(a: seq<Stmt>, b: seq<Stmt>, o: Owner, w: World)
    ensures var t := ExecAll(a, o, w);
            ExecAll(a + b, o, w) == if t.raised then t else ExecAll(b, t.owner, t.world)
    decreases |a|
  {
    if a == [] {
      assert a + b == b;
    } else {
      assert (a + b)[0] == a[0] && (a + b)[1..] == a[1..] + b;
      var t := Exec(a[0], o, w);
      ExecAllConcat(a[1..], b, t.owner, t.world);
    }
  }

  /** A handler only hides the exception, and a join only marks the owner when one leaves it. */
  lemma HandlersAndJoins(body: seq<Stmt>, o: Owner, w: World)
    ensures var t := ExecAll(body, o, w);
            && Exec(Try(body), o, w) == Turn(t.owner, t.world, false)
            && Exec(Join(body), o, w) == Turn(t.owner.(failed := t.owner.failed || t.raised), t.world, t.raised)
            && (forall ev :: ServiceCall(ev) ==> Exec(Call(ev), o, w) == Apply(ev, o, w))
  {
  }

  // ------------------------------------------------------------------
  // How the outer block ends
  // ------------------------------------------------------------------

  /** What an exception was raised from: nothing, something else, or an error of the database driver. */
  datatype Cause = NoCause | OtherCause | DriverError(integrity: bool, sqlstate: string)

  datatype Error = Error(integrity: bool, cause: Cause)

  /** The exception that left the block: the body's own, or a later one. */
  datatype Leaving = BodyError | Later(error: Error)

  /** An integrity error the driver reports with a SQLSTATE of class 23. */
  predicate Class23(x: Error) {
    x.integrity && x.cause.DriverError? && x.cause.integrity && "23" <= x.cause.sqlstate
  }

  /** _unknown_rollback */
  predicate UnknownRollback(x: Leaving, connectionGone: bool) {
    match x
    case BodyError => connectionGone
    case Later(error) => !Class23(error)
  }

  /** The COMMIT statement; a failed one may still have been applied. */
  datatype CommitStep = CommitDone | CommitFailed(error: Error, applied: bool)

  /** On-commit hooks run in order of registration until one raises. */
  datatype Hook = MarkCommitted | Callback(raises: Option<Error>)

  /** Whether the owner was marked committed, and what a hook raised. */
  datatype HookRun = HookRun(committed: bool, raised: Option<Error>)

  function RunHooks(hooks: seq<Hook>, committed: bool): HookRun
    decreases |hooks|
  {
    if hooks == [] then HookRun(committed, None)
    else match hooks[0]
      case MarkCommitted => RunHooks(hooks[1..], true)
      case Callback(raises) => if raises.Some? then HookRun(committed, raises) else RunHooks(hooks[1..], committed)
  }

  /** The surroundings of the final commit, chosen freely; `callbacks` were registered after the owner's own hook. */
  datatype Ending = Ending(connectionGone: bool, commit: CommitStep, callbacks: seq<Hook>)

  function HooksOf(e: Ending): seq<Hook> {
    [MarkCommitted] + e.callbacks
  }

  /** A commit that failed a constraint of class 23 was not applied. */
  predicate Plausible(e: Ending) {
    e.commit.CommitFailed? && Class23(e.commit.error) ==> !e.commit.applied
  }

  /** What the owner concludes. */
  datatype Verdict = Committed | RolledBack | Unknown

  function Outcome(committed: bool, unknown: bool): Verdict {
    if committed then Committed else if unknown then Unknown else RolledBack
  }

  datatype Note =
    | CommittedNeedsReview
    | VersionRemoved
    | CleanupNeedsReview
    | OutcomeUnknown
    | DiscardCommittedNotCleaned
    | DiscardUnknown
    | DiscardRolledBack
    | DiscardCleanupIncomplete

  datatype Record = Record(attempt: Attempt, note: Note)

  /** A delete request sent to the store. */
  datatype Target = Target(path: string, version: nat)

  function AttemptNote(a: Attempt, verdict: Verdict, removed: bool): Note {
    if verdict.Committed? then CommittedNeedsReview
    else if verdict.RolledBack? && a.version.Some? then (if removed then VersionRemoved else CleanupNeedsReview)
    else OutcomeUnknown
  }

  function DiscardNote(verdict: Verdict): Note {
    match verdict
    case Committed => DiscardCommittedNotCleaned
    case Unknown => DiscardUnknown
    case RolledBack => DiscardRolledBack
  }

  function Targets(attempts: seq<Attempt>): seq<Target> {
    if attempts == [] then []
    else (if attempts[0].version.Some? then [Target(attempts[0].path, attempts[0].version.value)] else [])
         + Targets(attempts[1..])
  }

  /** recover deletes only after a known rollback, newest write first. */
  function RecoveryDeletes(attempts: seq<Attempt>, verdict: Verdict): seq<Target> {
    if verdict.RolledBack? then Targets(Reverse(attempts)) else []
  }

  /** `removed[i]` tells whether the delete for the i-th newest attempt succeeded. */
  function RecoveryRecords(attempts: seq<Attempt>, verdict: Verdict, removed: nat -> bool): seq<Record> {
    var order := Reverse(attempts);
    seq(|order|, i requires 0 <= i < |order| => Record(order[i], AttemptNote(order[i], verdict, removed(i))))
  }

  function DiscardRecords(deletions: seq<Attempt>, verdict: Verdict): seq<Record> {
    seq(|deletions|, i requires 0 <= i < |deletions| => Record(deletions[i], DiscardNote(verdict)))
  }

  /** finish_deletions leaves a record for each discard it could not complete. */
  function CleanupRecords(deletions: seq<Attempt>, done: nat -> bool, from: nat): seq<Record>
    decreases |deletions|
  {
    if deletions == [] then []
    else (if done(from) then [] else [Record(deletions[0], DiscardCleanupIncomplete)])
         + CleanupRecords(deletions[1..], done, from + 1)
  }

  /**
   * `applied` is what the database really did; `verdict` is what the owner
   * concludes. `undone` are the compensating deletes, `cleaned` the discard
   * deletes, `records` the reconciliation records in order.
   */
  datatype Report = Report(
    verdict: Verdict,
    applied: bool,
    normal: bool,
    undone: seq<Target>,
    cleaned: seq<Target>,
    records: seq<Record>,
    owner: Owner)

  function Recover(o: Owner, verdict: Verdict, applied: bool, answers: nat -> bool): Report {
    Report(verdict, applied, false, RecoveryDeletes(o.attempts, verdict), [],
           RecoveryRecords(o.attempts, verdict, answers) + DiscardRecords(o.deletions, verdict), o)
  }

  function Finish(o: Owner, answers: nat -> bool): Report {
    var records := CleanupRecords(o.deletions, answers, 0);
    Report(Committed, true, records == [], [], Targets(o.deletions), records, o)
  }

  /** Everything material_transaction does once its body returned or raised. */
  function Close(t: Turn, e: Ending, answers: nat -> bool): Report {
    if t.raised || !MayCommit(t.owner) then
      Recover(t.owner, Outcome(false, UnknownRollback(BodyError, e.connectionGone)), false, answers)
    else if e.commit.CommitFailed? then
      Recover(t.owner, Outcome(false, UnknownRollback(Later(e.commit.error), e.connectionGone)),
              e.commit.applied, answers)
    else
      var hooks := RunHooks(HooksOf(e), false);
      if hooks.raised.Some? then
        Recover(t.owner, Outcome(hooks.committed, UnknownRollback(Later(hooks.raised.value), e.connectionGone)),
                true, answers)
      else if t.owner.deletions != [] && !hooks.committed then
        Report(Unknown, true, false, [], [], [], t.owner)
      else Finish(t.owner, answers)
  }

  function RunOwner(body: seq<Stmt>, path: string, row: Row, w: World, e: Ending, answers: nat -> bool): Report {
    Close(ExecAll(body, Opened(path, row), w), e, answers)
  }

  /** The recorded staged version was issued by the store. */
  predicate Sane(row: Row, w: World) {
    row.staged.Some? ==> row.staged.value <= w.vault.counter
  }

  lemma OwnerGood(body: seq<Stmt>, path: string, row: Row, w: World)
    requires Sane(row, w)
    ensures Leads(Opened(path, row), w, ExecAll(body, Opened(path, row), w))
  {
    ExecAllLeads(body, Opened(path, row), w);
  }

  // ------------------------------------------------------------------
  // Saga outcome
  // ------------------------------------------------------------------

  function At(path: string, versions: seq<nat>): seq<Target> {
    seq(|versions|, i requires 0 <= i < |versions| => Target(path, versions[i]))
  }

  ghost predicate AllAt(path: string, attempts: seq<Attempt>) {
    forall i :: 0 <= i < |attempts| ==> attempts[i].path == path
  }

  lemma AtCons(path: string, v: nat, rest: seq<nat>)
    ensures At(path, [v] + rest) == [Target(path, v)] + At(path, rest)
  {
  }

  lemma {:induction false} TargetsAt(path: string, attempts: seq<Attempt>)
    requires AllAt(path, attempts)
    ensures Targets(attempts) == At(path, Known(attempts))
  {
    if attempts != [] {
      var rest := attempts[1..];
      assert forall i :: 0 <= i < |rest| ==> rest[i] == attempts[i + 1];
      TargetsAt(path, rest);
      if attempts[0].version.Some? {
        AtCons(path, attempts[0].version.value, Known(rest));
      } else {
        assert Known(attempts) == [] + Known(rest) == Known(rest);
        assert Targets(attempts) == [] + Targets(rest) == Targets(rest);
      }
    }
  }

  lemma {:induction false} KnownReverse(attempts: seq<Attempt>)
    ensures Known(Reverse(attempts)) == Reverse(Known(attempts))
  {
    if attempts != [] {
      KnownReverse(attempts[1..]);
      KnownAppend(Reverse(attempts[1..]), attempts[0]);
      if attempts[0].version.Some? {
        assert Known(attempts)[1..] == Known(attempts[1..]);
      } else {
        assert Known(attempts) == Known(attempts[1..]);
      }
    }
  }

  lemma {:induction false} KnownAll(attempts: seq<Attempt>)
    requires forall i :: 0 <= i < |attempts| ==> attempts[i].version.Some?
    ensures |Known(attempts)| == |attempts|
    ensures forall i :: 0 <= i < |attempts| ==> attempts[i].version == Some(Known(attempts)[i])
  {
    if attempts != [] {
      KnownAll(attempts[1..]);
      forall i | 0 <= i < |attempts|
        ensures attempts[i].version == Some(Known(attempts)[i])
      {
        if i > 0 {
          assert attempts[i] == attempts[1..][i - 1];
        }
      }
    }
  }

  ghost predicate PathKept(o: Owner) {
    AllAt(o.path, o.attempts) && AllAt(o.path, o.deletions)
  }

  lemma PathStep(ev: Event, o: Owner, w: World)
    requires PathKept(o)
    ensures PathKept(Apply(ev, o, w).owner) && Apply(ev, o, w).owner.path == o.path
  {
  }

  lemma {:induction false} ExecPath(s: Stmt, o: Owner, w: World)
    requires PathKept(o)
    ensures PathKept(Exec(s, o, w).owner) && Exec(s, o, w).owner.path == o.path
    decreases s, 1
  {
    match s
    case Call(ev) => PathStep(ev, o, w);
    case Join(body) => ExecAllPath(body, o, w);
    case Atomic(body) =>
      var marked := Apply(Mark, o, w).owner;
      ExecAllPath(body, marked, w);
      var t := ExecAll(body, marked, w);
      PathStep(if t.raised then Undo else Release, t.owner, t.world);
    case Try(body) => ExecAllPath(body, o, w);
    case Raise =>
  }

  lemma {:induction false} ExecAllPath(ss: seq<Stmt>, o: Owner, w: World)
    requires PathKept(o)
    ensures PathKept(ExecAll(ss, o, w).owner) && ExecAll(ss, o, w).owner.path == o.path
    decreases ss, 0
  {
    if ss != [] {
      var t := Exec(ss[0], o, w);
      ExecPath(ss[0], o, w);
      if !t.raised {
        ExecAllPath(ss[1..], t.owner, t.world);
      }
    }
  }

  /**
   * A concluded rollback really is one, and deletes exactly the acknowledged
   * writes of this owner, newest first; any other verdict deletes none of them.
   */
  lemma CompensationIsExact(body: seq<Stmt>, path: string, row: Row, w: World, e: Ending, answers: nat -> bool)
    requires Sane(row, w) && Plausible(e)
    ensures var r := RunOwner(body, path, row, w, e, answers);
            && (r.verdict.RolledBack? ==> !r.applied && r.undone == At(path, Reverse(Acked(r.owner.trace))))
            && (!r.verdict.RolledBack? ==> r.undone == [])
            && (r.verdict.Committed? ==> r.applied)
  {
    HooksOfEnding(e);
    var o := ExecAll(body, Opened(path, row), w).owner;
    OwnerGood(body, path, row, w);
    ExecAllPath(body, Opened(path, row), w);
    ReverseAt(o.attempts);
    TargetsAt(path, Reverse(o.attempts));
    KnownReverse(o.attempts);
  }

  /** The body raised, was refused, or lost its commit witness. */
  predicate Stopped(t: Turn) {
    t.raised || !MayCommit(t.owner)
  }

  predicate CallbackRaises(e: Ending) {
    exists i :: 0 <= i < |e.callbacks| && e.callbacks[i].Callback? && e.callbacks[i].raises.Some?
  }

  lemma {:induction false} HooksStayCommitted(hooks: seq<Hook>)
    ensures RunHooks(hooks, true).committed
    ensures RunHooks(hooks, true).raised.Some? <==>
      exists i :: 0 <= i < |hooks| && hooks[i].Callback? && hooks[i].raises.Some?
    decreases |hooks|
  {
    if hooks != [] {
      HooksStayCommitted(hooks[1..]);
      if i :| 0 <= i < |hooks| && hooks[i].Callback? && hooks[i].raises.Some? {
        if i > 0 {
          assert hooks[1..][i - 1] == hooks[i];
        }
      }
      if i :| 0 <= i < |hooks[1..]| && hooks[1..][i].Callback? && hooks[1..][i].raises.Some? {
        assert hooks[i + 1] == hooks[1..][i];
      }
    }
  }

  /** The owner's hook runs first, so whatever a later one raises, the commit is known. */
  lemma HooksOfEnding(e: Ending)
    ensures RunHooks(HooksOf(e), false).committed && (RunHooks(HooksOf(e), false).raised.Some? <==> CallbackRaises(e))
  {
    assert HooksOf(e)[1..] == e.callbacks;
    HooksStayCommitted(e.callbacks);
  }

  /**
   * The three outcomes, from the exception tests and the hooks. A body's own
   * error is a rollback unless the connection is gone; an error of COMMIT is one
   * exactly for class 23; after a commit the outcome is committed whatever a
   * callback raises, a class 23 error included. Nothing is called committed that
   * the database did not take, nor rolled back that it did.
   */
  lemma OutcomeIsExact(t: Turn, e: Ending, answers: nat -> bool)
    requires Plausible(e)
    ensures var r := Close(t, e, answers);
            && (r.verdict.RolledBack? <==>
                  if Stopped(t) then !e.connectionGone else
                    && e.commit.CommitFailed? && e.commit.error.integrity && e.commit.error.cause.DriverError?
                    && e.commit.error.cause.integrity && |e.commit.error.cause.sqlstate| >= 2
                    && e.commit.error.cause.sqlstate[0] == '2' && e.commit.error.cause.sqlstate[1] == '3')
            && (r.verdict.Committed? <==> !Stopped(t) && e.commit.CommitDone?)
            && (r.verdict.Committed? ==> r.applied) && (r.verdict.RolledBack? ==> !r.applied)
            && (r.normal ==> r.verdict.Committed? && r.records == [] && !CallbackRaises(e))
  {
    HooksOfEnding(e);
  }

  /**
   * The owner stops short of the commit exactly if its body raised, it was
   * refused, or some write or discard has no audit row among those the
   * transaction would commit.
   */
  lemma StoppedIff(t: Turn)
    requires t.owner.savepoints == []
    ensures Stopped(t) <==>
      || t.raised || t.owner.failed
      || (exists i :: 0 <= i < |t.owner.attempts| && Unaudited(t.owner.attempts[i], t.owner.now.audits))
      || (exists i :: 0 <= i < |t.owner.deletions| && Unaudited(t.owner.deletions[i], t.owner.now.audits))
  {
    var o := t.owner;
    var all := o.attempts + o.deletions;
    if !Witness(o) {
      var i :| 0 <= i < |all| && !Retained(all[i], o.now.audits);
      assert Unaudited(if i < |o.attempts| then o.attempts[i] else o.deletions[i - |o.attempts|], o.now.audits);
    }
    if i :| 0 <= i < |o.attempts| && Unaudited(o.attempts[i], o.now.audits) {
      assert all[i] == o.attempts[i];
    }
    if i :| 0 <= i < |o.deletions| && Unaudited(o.deletions[i], o.now.audits) {
      assert all[|o.attempts| + i] == o.deletions[i];
    }
  }

  predicate Unaudited(a: Attempt, audits: set<nat>) {
    a.audit == None || a.audit.value !in audits
  }

  /**
   * Registered behind a callback that fails with class 23, the owner's hook
   * would not run, and a commit would read as a rollback.
   */
  lemma HookOrderMatters(x: Error, callbacks: seq<Hook>)
    requires Class23(x)
    ensures var hooks := RunHooks([Callback(Some(x))] + callbacks + [MarkCommitted], false);
            hooks.raised == Some(x) && Outcome(hooks.committed, UnknownRollback(Later(x), false)).RolledBack?
  {
    assert ([Callback(Some(x))] + callbacks + [MarkCommitted])[0] == Callback(Some(x));
  }

  /** Whether the owner leaves through recovery rather than through its cleanup. */
  predicate Recovers(t: Turn, e: Ending) {
    t.raised || !MayCommit(t.owner) || e.commit.CommitFailed? || CallbackRaises(e)
  }

  predicate TellsAttempt(record: Record, verdict: Verdict, removed: bool) {
    && (record.note.CommittedNeedsReview? <==> verdict.Committed?)
    && (record.note.VersionRemoved? <==> verdict.RolledBack? && record.attempt.version.Some? && removed)
    && (record.note.CleanupNeedsReview? <==> verdict.RolledBack? && record.attempt.version.Some? && !removed)
    && (record.note.OutcomeUnknown? <==>
          verdict.Unknown? || (verdict.RolledBack? && record.attempt.version.None?))
  }

  predicate TellsDiscard(note: Note, verdict: Verdict) {
    && (note.DiscardCommittedNotCleaned? <==> verdict.Committed?)
    && (note.DiscardRolledBack? <==> verdict.RolledBack?)
    && (note.DiscardUnknown? <==> verdict.Unknown?)
  }

  /**
   * When recovery runs, each attempt and then each discard gets exactly one
   * record, which says what became of it: after a commit it needs review, after a
   * rollback the version was removed or not, and the rest is unknown.
   */
  lemma OneRecordEach(t: Turn, e: Ending, answers: nat -> bool)
    requires Recovers(t, e)
    ensures var r := Close(t, e, answers);
            !r.normal && RecordsTell(r.records, t.owner, r.verdict, answers)
  {
    var r := Close(t, e, answers);
    RecoversCloses(t, e, answers);
    RecoverTells(t.owner, r.verdict, r.applied, answers);
  }

  ghost predicate RecordsTell(records: seq<Record>, o: Owner, verdict: Verdict, answers: nat -> bool) {
    && |records| == |o.attempts| + |o.deletions|
    && (forall i :: 0 <= i < |o.attempts| ==>
          && records[i].attempt == o.attempts[|o.attempts| - 1 - i]
          && TellsAttempt(records[i], verdict, answers(i)))
    && (forall i :: 0 <= i < |o.deletions| ==> records[|o.attempts| + i].attempt == o.deletions[i])
    && (forall j :: |o.attempts| <= j < |records| ==> TellsDiscard(records[j].note, verdict))
  }

  lemma RecoversCloses(t: Turn, e: Ending, answers: nat -> bool)
    requires Recovers(t, e)
    ensures var r := Close(t, e, answers); r == Recover(t.owner, r.verdict, r.applied, answers)
  {
    HooksOfEnding(e);
  }

  lemma RecoverTells(o: Owner, verdict: Verdict, applied: bool, answers: nat -> bool)
    ensures RecordsTell(Recover(o, verdict, applied, answers).records, o, verdict, answers)
  {
    ReverseAt(o.attempts);
    var attempts, discards := RecoveryRecords(o.attempts, verdict, answers), DiscardRecords(o.deletions, verdict);
    assert Recover(o, verdict, applied, answers).records == attempts + discards;
    assert TellsDiscard(DiscardNote(verdict), verdict);
    assert forall i :: 0 <= i < |discards| ==> discards[i].note == DiscardNote(verdict);
  }

  // ------------------------------------------------------------------
  // Commit witness
  // ------------------------------------------------------------------

  /**
   * If the database took the change, every write it made to the store was
   * acknowledged, and the audit row of each write and each discard is among the
   * committed audit rows.
   */
  lemma CommitIsWitnessed(body: seq<Stmt>, path: string, row: Row, w: World, e: Ending, answers: nat -> bool)
    requires Sane(row, w)
    requires RunOwner(body, path, row, w, e, answers).applied
    ensures var o := RunOwner(body, path, row, w, e, answers).owner;
            && (forall i :: 0 <= i < |o.trace| && o.trace[i].Wrote? ==> o.trace[i].acknowledged)
            && |Acked(o.trace)| == |o.attempts| && |ClearedIn(o.trace)| == |o.deletions|
            && (forall i :: 0 <= i < |o.attempts| ==>
                  o.attempts[i].version == Some(Acked(o.trace)[i]) && Retained(o.attempts[i], o.now.audits))
            && (forall i :: 0 <= i < |o.deletions| ==>
                  o.deletions[i].version == Some(ClearedIn(o.trace)[i]) && Retained(o.deletions[i], o.now.audits))
  {
    var o := ExecAll(body, Opened(path, row), w).owner;
    OwnerGood(body, path, row, w);
    forall i | 0 <= i < |o.attempts|
      ensures Retained(o.attempts[i], o.now.audits)
    {
      assert (o.attempts + o.deletions)[i] == o.attempts[i];
    }
    forall i | 0 <= i < |o.deletions|
      ensures Retained(o.deletions[i], o.now.audits)
    {
      assert (o.attempts + o.deletions)[|o.attempts| + i] == o.deletions[i];
    }
    KnownAll(o.attempts);
    KnownAll(o.deletions);
  }

  /** Some remembered write or discard has lost its audit row, or the owner was refused. */
  ghost predicate Doomed(o: Owner) {
    o.failed
    || exists i :: 0 <= i < |o.attempts + o.deletions| && !Retained((o.attempts + o.deletions)[i], o.now.audits)
  }

  lemma DoomedForever(o: Owner, w: World, t: Turn)
    requires Good(o, w) && Doomed(o) && Leads(o, w, t)
    ensures Doomed(t.owner)
  {
    if !t.owner.failed {
      var i :| 0 <= i < |o.attempts + o.deletions| && !Retained((o.attempts + o.deletions)[i], o.now.audits);
      var k := if i < |o.attempts| then i else |t.owner.attempts| + (i - |o.attempts|);
      assert (t.owner.attempts + t.owner.deletions)[k] == (o.attempts + o.deletions)[i];
    }
  }

  /** Whatever the rest of a doomed body does, nothing commits and the owner compensates or reports. */
  lemma DoomedNeverCommits(o: Owner, w: World, rest: seq<Stmt>, e: Ending, answers: nat -> bool)
    requires Good(o, w) && Doomed(o)
    ensures var r := Close(ExecAll(rest, o, w), e, answers);
            && !r.applied && !r.normal && r.cleaned == []
            && r.verdict == (if e.connectionGone then Unknown else RolledBack)
  {
    ExecAllLeads(rest, o, w);
    DoomedForever(o, w, ExecAll(rest, o, w));
  }

  /** An exception that leaves a join dooms the owner even when a handler swallows it. */
  lemma SwallowedJoinDooms(body: seq<Stmt>, o: Owner, w: World)
    requires Exec(Join(body), o, w).raised
    ensures !Exec(Try([Join(body)]), o, w).raised && Doomed(Exec(Try([Join(body)]), o, w).owner)
  {
  }

  /** A write or discard whose audit insert failed dooms the owner without an exception. */
  lemma MissingAuditDooms(ev: Event, o: Owner, w: World)
    requires ev.Replace? || ev.Stage? || ev.Discard?
    requires if ev.Discard? then !ev.audited else !ev.luck.audited
    requires !Apply(ev, o, w).raised
    ensures Doomed(Apply(ev, o, w).owner)
  {
    var o' := Apply(ev, o, w).owner;
    var k := if ev.Discard? then |o'.attempts| + |o.deletions| else |o.attempts|;
    assert !Retained((o'.attempts + o'.deletions)[k], o'.now.audits);
  }

  /** A savepoint rollback that undoes a write or discard dooms the owner, swallowed or not. */
  lemma UndoneWorkDooms(body: seq<Stmt>, o: Owner, w: World)
    requires Good(o, w)
    requires Exec(Atomic(body), o, w).raised
    requires var inner := ExecAll(body, Apply(Mark, o, w).owner, w).owner;
             |inner.attempts| + |inner.deletions| > |o.attempts| + |o.deletions|
    ensures Doomed(Exec(Try([Atomic(body)]), o, w).owner)
  {
    var marked := Apply(Mark, o, w).owner;
    HonestStep(Mark, o, w);
    SettledStep(Mark, o, w);
    ExecAllLeads(body, marked, w);
    FreshAuditsAll(body, marked, w);
    var inner := ExecAll(body, marked, w).owner;
    var grew := |inner.attempts| > |o.attempts|;
    var k := if grew then |o.attempts| else |inner.attempts| + |o.deletions|;
    var a := if grew then inner.attempts[|o.attempts|] else inner.deletions[|o.deletions|];
    assert a == (inner.attempts + inner.deletions)[k] && !Retained(a, o.now.audits);
    var t := Exec(Atomic(body), o, w);
    assert ExecAll([Atomic(body)], o, w) == t;
    var o' := Exec(Try([Atomic(body)]), o, w).owner;
    assert o' == t.owner && o'.now == o.now;
    assert (o'.attempts + o'.deletions)[k] == a;
  }

  /** Everything remembered after this point carries an audit number issued after it. */
  ghost predicate FreshSince(o: Owner, w: World, o': Owner) {
    && |o.attempts| <= |o'.attempts| && |o.deletions| <= |o'.deletions|
    && (forall i :: |o.attempts| <= i < |o'.attempts| && o'.attempts[i].audit.Some? ==>
          o'.attempts[i].audit.value >= w.nextAudit)
    && (forall i :: |o.deletions| <= i < |o'.deletions| && o'.deletions[i].audit.Some? ==>
          o'.deletions[i].audit.value >= w.nextAudit)
  }

  lemma StepFresh(ev: Event, o: Owner, w: World)
    ensures FreshSince(o, w, Apply(ev, o, w).owner)
  {
  }

  lemma {:induction false} FreshAudits(s: Stmt, o: Owner, w: World)
    ensures FreshSince(o, w, Exec(s, o, w).owner)
    ensures Extends(o, w, Exec(s, o, w).owner, Exec(s, o, w).world)
    decreases s, 1
  {
    match s
    case Call(ev) =>
      StepFresh(ev, o, w);
      ExtendsStep(ev, o, w);
    case Join(body) => FreshAuditsAll(body, o, w);
    case Atomic(body) =>
      var marked := Apply(Mark, o, w).owner;
      FreshAuditsAll(body, marked, w);
    case Try(body) => FreshAuditsAll(body, o, w);
    case Raise =>
  }

  lemma {:induction false} FreshAuditsAll(ss: seq<Stmt>, o: Owner, w: World)
    ensures FreshSince(o, w, ExecAll(ss, o, w).owner)
    ensures Extends(o, w, ExecAll(ss, o, w).owner, ExecAll(ss, o, w).world)
    decreases ss, 0
  {
    if ss != [] {
      var t := Exec(ss[0], o, w);
      FreshAudits(ss[0], o, w);
      if !t.raised {
        FreshAuditsAll(ss[1..], t.owner, t.world);
      }
    }
  }

  // ------------------------------------------------------------------
  // Discard ordering
  // ------------------------------------------------------------------

  /**
   * Discard deletes are sent if and only if the owner committed and no callback
   * raised, for exactly the versions this owner cleared, each once and none of
   * them still staged. Then nothing is compensated, exactly the discards not
   * completed are recorded, in order, and the block ends normally without any.
   */
  lemma DiscardAfterCommit(body: seq<Stmt>, path: string, row: Row, w: World, e: Ending, answers: nat -> bool)
    requires Sane(row, w)
    ensures var t, r := ExecAll(body, Opened(path, row), w), RunOwner(body, path, row, w, e, answers);
            && (Recovers(t, e) ==> r.cleaned == [] && !r.normal)
            && (!Recovers(t, e) ==>
                  && r.verdict.Committed? && r.applied && e.commit.CommitDone? && r.undone == []
                  && r.cleaned == At(path, ClearedIn(r.owner.trace)) && Distinct(r.cleaned)
                  && (forall i :: 0 <= i < |r.cleaned| ==> Some(r.cleaned[i].version) != r.owner.now.row.staged)
                  && (r.normal <==> AllDone(r.owner.deletions, answers))
                  && (forall j :: 0 <= j < |r.records| ==> r.records[j].note == DiscardCleanupIncomplete)
                  && (forall a :: a in Subjects(r.records) <==> Left(r.owner.deletions, answers, a)))
  {
    HooksOfEnding(e);
    var t := ExecAll(body, Opened(path, row), w);
    var o := t.owner;
    OwnerGood(body, path, row, w);
    if !Recovers(t, e) {
      ExecAllPath(body, Opened(path, row), w);
      TargetsAt(path, o.deletions);
      CommitIsWitnessed(body, path, row, w, e, answers);
      CleanupIs(o.deletions, answers);
    }
  }

  /** What the records are about. */
  function Subjects(records: seq<Record>): seq<Attempt> {
    seq(|records|, i requires 0 <= i < |records| => records[i].attempt)
  }

  lemma {:induction false} CleanupAppend(s: seq<Attempt>, a: Attempt, done: nat -> bool, from: nat)
    ensures CleanupRecords(s + [a], done, from)
         == CleanupRecords(s, done, from) + (if done(from + |s|) then [] else [Record(a, DiscardCleanupIncomplete)])
    decreases |s|
  {
    if s == [] {
      assert s + [a] == [a];
    } else {
      var head := if done(from) then [] else [Record(s[0], DiscardCleanupIncomplete)];
      assert (s + [a])[0] == s[0] && (s + [a])[1..] == s[1..] + [a];
      CleanupAppend(s[1..], a, done, from + 1);
      assert CleanupRecords(s + [a], done, from) == head + CleanupRecords(s[1..] + [a], done, from + 1);
      Assoc(head, CleanupRecords(s[1..], done, from + 1),
            if done(from + |s|) then [] else [Record(a, DiscardCleanupIncomplete)]);
    }
  }

  /** A discard that was not completed. */
  ghost predicate Left(deletions: seq<Attempt>, done: nat -> bool, a: Attempt) {
    exists i :: 0 <= i < |deletions| && deletions[i] == a && !done(i)
  }

  ghost predicate AllDone(deletions: seq<Attempt>, done: nat -> bool) {
    forall i :: 0 <= i < |deletions| ==> done(i)
  }

  lemma LeftSnoc(front: seq<Attempt>, last: Attempt, done: nat -> bool, a: Attempt)
    ensures Left(front + [last], done, a) <==> Left(front, done, a) || (a == last && !done(|front|))
  {
    var all := front + [last];
    if i :| 0 <= i < |front| && front[i] == a && !done(i) {
      assert all[i] == a;
    }
    assert all[|front|] == last;
  }

  lemma {:induction false} CleanupIs(deletions: seq<Attempt>, done: nat -> bool)
    ensures var records := CleanupRecords(deletions, done, 0);
            && (records == [] <==> AllDone(deletions, done))
            && (forall j :: 0 <= j < |records| ==> records[j].note == DiscardCleanupIncomplete)
            && (forall a :: a in Subjects(records) <==> Left(deletions, done, a))
    decreases |deletions|
  {
    if deletions != [] {
      var front, last := DropLast(deletions), Last(deletions);
      assert deletions == front + [last];
      CleanupIs(front, done);
      CleanupAppend(front, last, done, 0);
      var tail := if done(|front|) then [] else [Record(last, DiscardCleanupIncomplete)];
      assert Subjects(CleanupRecords(front, done, 0) + tail)
          == Subjects(CleanupRecords(front, done, 0)) + (if done(|front|) then [] else [last]);
      forall a
        ensures Left(deletions, done, a) <==> Left(front, done, a) || (a == last && !done(|front|))
      {
        LeftSnoc(front, last, done, a);
      }
    }
  }

  /** A discard whose delete was not sent, or not completed, is in the reconciliation records. */
  lemma UncleanedIsRecorded(t: Turn, e: Ending, answers: nat -> bool, i: nat)
    requires i < |t.owner.deletions|
    requires Recovers(t, e) || !answers(i)
    ensures var r := Close(t, e, answers);
            !r.normal && exists j :: 0 <= j < |r.records| && r.records[j].attempt == t.owner.deletions[i]
  {
    HooksOfEnding(e);
    var r := Close(t, e, answers);
    if Recovers(t, e) {
      OneRecordEach(t, e, answers);
      assert r.records[|t.owner.attempts| + i].attempt == t.owner.deletions[i];
    } else {
      CleanupCovers(t.owner.deletions, answers, 0, i);
    }
  }

  lemma {:induction false} CleanupCovers(deletions: seq<Attempt>, done: nat -> bool, from: nat, i: nat)
    requires i < |deletions| && !done(from + i)
    ensures exists j :: 0 <= j < |CleanupRecords(deletions, done, from)|
                        && CleanupRecords(deletions, done, from)[j].attempt == deletions[i]
  {
    var rest := CleanupRecords(deletions[1..], done, from + 1);
    var all := CleanupRecords(deletions, done, from);
    if i == 0 {
      assert all[0].attempt == deletions[0];
    } else {
      CleanupCovers(deletions[1..], done, from + 1, i - 1);
      var j :| 0 <= j < |rest| && rest[j].attempt == deletions[1..][i - 1];
      assert all[j + (|all| - |rest|)] == rest[j];
    }
  }
}
