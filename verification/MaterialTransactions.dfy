/**
 * The mutable owner object: the lists it fills, the loops that witness, recover
 * and clean up, and the participant graph it freezes. Each method is tied to
 * the functions of Saga and Material that the whole-run results are about.
 */
module MaterialTransactions {
  import opened Prelude
  import opened Material
  import opened Saga

  /** The store as an owner reaches it for deletes: any request may fail. `answers` says which did not. */
  class Backend {
    var requests: seq<Target>
    ghost var answers: seq<bool>

    constructor ()
      ensures requests == [] && answers == []
    {
      requests := [];
      answers := [];
    }

    method Delete(t: Target) returns (ok: bool)
      modifies this
      ensures requests == old(requests) + [t] && answers == old(answers) + [ok]
    {
      requests := requests + [t];
      ok := *;
      answers := answers + [ok];
    }
  }

  /** One update of an audit row, and whether it found the row. */
  datatype AuditUpdate = AuditUpdate(audit: Option<nat>, ok: bool)

  /** The access log: audit rows that exist, reconciliation records written, and updates of audit rows tried. */
  class AccessLog {
    var rows: set<nat>
    var records: seq<Record>
    ghost var marks: seq<AuditUpdate>

    constructor (rows: set<nat>)
      ensures this.rows == rows && records == [] && marks == []
    {
      this.rows := rows;
      records := [];
      marks := [];
    }

    method RecordRecovery(a: Attempt, note: Note)
      modifies this`records
      ensures records == old(records) + [Record(a, note)]
    {
      records := records + [Record(a, note)];
    }

    /** Marking the discard's audit row successful; the row may have become unavailable. */
    method MarkDone(id: Option<nat>) returns (ok: bool)
      modifies this`marks
      ensures ok ==> id.Some? && id.value in rows
      ensures marks == old(marks) + [AuditUpdate(id, ok)]
    {
      var reachable: bool := *;
      ok := reachable && id.Some? && id.value in rows;
      marks := marks + [AuditUpdate(id, ok)];
    }
  }

  function Answers(s: seq<bool>): nat -> bool {
    (i: nat) => i < |s| && s[i]
  }

  lemma {:induction false} TargetsAppend(s: seq<Attempt>, a: Attempt)
    ensures Targets(s + [a]) == Targets(s) + (if a.version.Some? then [Target(a.path, a.version.value)] else [])
  {
    if s == [] {
      assert s + [a] == [a];
    } else {
      var head := if s[0].version.Some? then [Target(s[0].path, s[0].version.value)] else [];
      assert (s + [a])[0] == s[0] && (s + [a])[1..] == s[1..] + [a];
      TargetsAppend(s[1..], a);
      assert Targets(s + [a]) == head + Targets(s[1..] + [a]);
    }
  }

  function DeletesFor(order: seq<Attempt>, verdict: Verdict): seq<Target> {
    if verdict.RolledBack? then Targets(order) else []
  }

  function RecordsFor(order: seq<Attempt>, verdict: Verdict, removed: seq<bool>): seq<Record>
    requires |removed| == |order|
  {
    seq(|order|, (i: nat) requires i < |order| => Record(order[i], AttemptNote(order[i], verdict, removed[i])))
  }

  /** The answers to the deletes that recovery sends, in the order of the attempts. */
  function AnswersFor(order: seq<Attempt>, verdict: Verdict, removed: seq<bool>): seq<bool>
    requires |removed| == |order|
  {
    if order == [] then []
    else AnswersFor(DropLast(order), verdict, DropLast(removed))
         + (if verdict.RolledBack? && Last(order).version.Some? then [Last(removed)] else [])
  }

  /** Nothing counts as removed for which no delete was sent. */
  predicate OnlySent(order: seq<Attempt>, verdict: Verdict, removed: seq<bool>) {
    && |removed| == |order|
    && forall i :: 0 <= i < |order| && removed[i] ==> verdict.RolledBack? && order[i].version.Some?
  }

  /** The audit updates of a cleanup: one for each discard whose delete succeeded, in order, with its outcome. */
  function MarksFor(deletions: seq<Attempt>, sent: seq<bool>, done: seq<bool>): seq<AuditUpdate>
    requires |sent| == |done| == |deletions|
  {
    if deletions == [] then []
    else MarksFor(DropLast(deletions), DropLast(sent), DropLast(done))
         + (if Last(sent) then [AuditUpdate(Last(deletions).audit, Last(done))] else [])
  }

  lemma AnswersNext(order: seq<Attempt>, i: nat, verdict: Verdict, removed: seq<bool>, ok: bool)
    requires i == |removed| < |order|
    ensures AnswersFor(order[..i + 1], verdict, removed + [ok])
         == AnswersFor(order[..i], verdict, removed)
            + (if verdict.RolledBack? && order[i].version.Some? then [ok] else [])
  {
    assert DropLast(order[..i + 1]) == order[..i] && DropLast(removed + [ok]) == removed;
  }

  lemma MarksNext(deletions: seq<Attempt>, i: nat, sent: seq<bool>, done: seq<bool>, ok: bool, complete: bool)
    requires i == |sent| == |done| < |deletions|
    ensures MarksFor(deletions[..i + 1], sent + [ok], done + [complete])
         == MarksFor(deletions[..i], sent, done) + (if ok then [AuditUpdate(deletions[i].audit, complete)] else [])
  {
    assert DropLast(deletions[..i + 1]) == deletions[..i];
    assert DropLast(sent + [ok]) == sent && DropLast(done + [complete]) == done;
  }

  lemma RecoveryNext(order: seq<Attempt>, i: nat, verdict: Verdict, removed: seq<bool>, ok: bool)
    requires i == |removed| < |order|
    ensures DeletesFor(order[..i + 1], verdict) == DeletesFor(order[..i], verdict) + DeletesFor([order[i]], verdict)
    ensures RecordsFor(order[..i + 1], verdict, removed + [ok])
         == RecordsFor(order[..i], verdict, removed) + [Record(order[i], AttemptNote(order[i], verdict, ok))]
  {
    assert order[..i + 1] == order[..i] + [order[i]];
    TargetsAppend(order[..i], order[i]);
    TargetsAppend([], order[i]);
    assert [] + [order[i]] == [order[i]];
  }

  lemma RecoveryDone(attempts: seq<Attempt>, verdict: Verdict, removed: seq<bool>)
    requires |removed| == |Reverse(attempts)|
    ensures DeletesFor(Reverse(attempts), verdict) == RecoveryDeletes(attempts, verdict)
    ensures RecordsFor(Reverse(attempts), verdict, removed) == RecoveryRecords(attempts, verdict, Answers(removed))
  {
  }

  lemma {:induction false} CleanupAgrees(s: seq<Attempt>, done: nat -> bool, done': nat -> bool, from: nat)
    requires forall i :: from <= i < from + |s| ==> done(i) == done'(i)
    ensures CleanupRecords(s, done, from) == CleanupRecords(s, done', from)
    decreases |s|
  {
    if s != [] {
      CleanupAgrees(s[1..], done, done', from + 1);
    }
  }

  lemma CleanupNext(deletions: seq<Attempt>, i: nat, done: seq<bool>, complete: bool)
    requires i == |done| < |deletions| && deletions[i].version.Some?
    ensures Targets(deletions[..i + 1])
            == Targets(deletions[..i]) + [Target(deletions[i].path, deletions[i].version.value)]
    ensures CleanupRecords(deletions[..i + 1], Answers(done + [complete]), 0)
         == CleanupRecords(deletions[..i], Answers(done), 0)
            + (if complete then [] else [Record(deletions[i], DiscardCleanupIncomplete)])
  {
    assert deletions[..i + 1] == deletions[..i] + [deletions[i]];
    TargetsAppend(deletions[..i], deletions[i]);
    CleanupAppend(deletions[..i], deletions[i], Answers(done + [complete]), 0);
    CleanupAgrees(deletions[..i], Answers(done), Answers(done + [complete]), 0);
  }

  /** What a cleanup of these discards has sent, been answered, recorded and updated. */
  ghost predicate Cleaned(
    deletions: seq<Attempt>, done: seq<bool>, sent: seq<bool>,
    requests: seq<Target>, records: seq<Record>, marks: seq<AuditUpdate>)
  {
    && |done| == |sent| == |deletions|
    && requests == Targets(deletions) && records == CleanupRecords(deletions, Answers(done), 0)
    && marks == MarksFor(deletions, sent, done)
  }

  lemma CleanedNext(
    deletions: seq<Attempt>, i: nat, done: seq<bool>, sent: seq<bool>,
    requests: seq<Target>, records: seq<Record>, marks: seq<AuditUpdate>, removed: bool, complete: bool)
    requires i < |deletions| && deletions[i].version.Some?
    requires Cleaned(deletions[..i], done, sent, requests, records, marks)
    ensures var d := deletions[i];
            Cleaned(deletions[..i + 1], done + [complete], sent + [removed],
                    requests + [Target(d.path, d.version.value)],
                    records + (if complete then [] else [Record(d, DiscardCleanupIncomplete)]),
                    marks + (if removed then [AuditUpdate(d.audit, complete)] else []))
  {
    CleanupNext(deletions, i, done, complete);
    MarksNext(deletions, i, sent, done, removed, complete);
  }

  /** What recovery of these attempts has sent, been answered and recorded. */
  ghost predicate Recovered(
    order: seq<Attempt>, verdict: Verdict, removed: seq<bool>,
    requests: seq<Target>, records: seq<Record>, answers: seq<bool>)
  {
    && OnlySent(order, verdict, removed)
    && requests == DeletesFor(order, verdict) && records == RecordsFor(order, verdict, removed)
    && answers == AnswersFor(order, verdict, removed)
  }

  lemma RecoveredNext(
    order: seq<Attempt>, i: nat, verdict: Verdict, removed: seq<bool>,
    requests: seq<Target>, records: seq<Record>, answers: seq<bool>, ok: bool)
    requires i < |order| && Recovered(order[..i], verdict, removed, requests, records, answers)
    requires ok ==> verdict.RolledBack? && order[i].version.Some?
    ensures Recovered(order[..i + 1], verdict, removed + [ok],
                      requests + DeletesFor([order[i]], verdict),
                      records + [Record(order[i], AttemptNote(order[i], verdict, ok))],
                      answers + (if verdict.RolledBack? && order[i].version.Some? then [ok] else []))
  {
    RecoveryNext(order, i, verdict, removed, ok);
    AnswersNext(order, i, verdict, removed, ok);
  }

  class MaterialTransaction {
    var attempts: seq<Attempt>
    var deletions: seq<Attempt>
    var failed: bool
    var committed: bool
    var knownRollback: bool
    var graphIds: map<string, set<int>>
    var graphFrozen: bool

    constructor ()
      ensures attempts == [] && deletions == [] && !failed && !committed && !knownRollback
      ensures graphIds == map[] && !graphFrozen
    {
      attempts, deletions := [], [];
      failed, committed, knownRollback := false, false, false;
      graphIds, graphFrozen := map[], false;
    }

    function KnownIds(kind: string): set<int>
      reads this
    {
      if kind in graphIds then graphIds[kind] else {}
    }

    /**
     * Accepted exactly when the graph is open or asks for nothing new. A frozen
     * graph never grows, whether the call is accepted or refused; an open one
     * grows by just what was asked for.
     */
    method DeclareGraph(kinds: seq<string>, requested: map<string, set<int>>) returns (ok: bool)
      requires forall i :: 0 <= i < |kinds| ==> kinds[i] in requested
      modifies this`graphIds
      ensures ok <==> !graphFrozen || forall i :: 0 <= i < |kinds| ==> requested[kinds[i]] <= old(KnownIds(kinds[i]))
      ensures graphFrozen ==> forall k :: KnownIds(k) == old(KnownIds(k))
      ensures ok ==> forall k :: KnownIds(k) == old(KnownIds(k)) + (if k in kinds then requested[k] else {})
    {
      var i := 0;
      while i < |kinds|
        invariant 0 <= i <= |kinds|
        invariant forall k :: KnownIds(k) == old(KnownIds(k)) + (if k in kinds[..i] then requested[k] else {})
        invariant graphFrozen ==> forall k :: KnownIds(k) == old(KnownIds(k))
      {
        var kind := kinds[i];
        if kind !in graphIds {
          graphIds := graphIds[kind := {}];
        }
        if graphFrozen && !(requested[kind] <= graphIds[kind]) {
          return false;
        }
        graphIds := graphIds[kind := graphIds[kind] + requested[kind]];
        assert kinds[..i + 1] == kinds[..i] + [kind];
        i := i + 1;
      }
      return true;
    }

    method Witness(log: AccessLog) returns (ok: bool)
      ensures ok <==> forall i :: 0 <= i < |attempts + deletions| ==> Retained((attempts + deletions)[i], log.rows)
    {
      var all := attempts + deletions;
      var i := 0;
      while i < |all|
        invariant 0 <= i <= |all|
        invariant forall j :: 0 <= j < i ==> Retained(all[j], log.rows)
      {
        if all[i].audit.None? || all[i].audit.value !in log.rows {
          return false;
        }
        i := i + 1;
      }
      return true;
    }

    /** One attempt: its exact version is deleted after a known rollback only, and one record is left. */
    method RecoverAttempt(attempt: Attempt, backend: Backend, log: AccessLog, unknown: bool) returns (removed: bool)
      modifies backend, log`records
      ensures var verdict := Outcome(committed, unknown);
              && backend.requests == old(backend.requests) + DeletesFor([attempt], verdict)
              && log.records == old(log.records) + [Record(attempt, AttemptNote(attempt, verdict, removed))]
              && backend.answers == old(backend.answers)
                   + (if verdict.RolledBack? && attempt.version.Some? then [removed] else [])
              && (removed ==> verdict.RolledBack? && attempt.version.Some?)
    {
      var note := OutcomeUnknown;
      removed := false;
      TargetsAppend([], attempt);
      assert [] + [attempt] == [attempt];
      if committed {
        note := CommittedNeedsReview;
      } else if !unknown && attempt.version.Some? {
        removed := backend.Delete(Target(attempt.path, attempt.version.value));
        note := if removed then VersionRemoved else CleanupNeedsReview;
      }
      log.RecordRecovery(attempt, note);
      assert old(backend.requests) + [] == old(backend.requests);
      assert old(backend.answers) + [] == old(backend.answers);
    }

    method RecoverAttempts(backend: Backend, log: AccessLog, unknown: bool) returns (removed: seq<bool>)
      modifies backend, log`records
      ensures backend.requests == old(backend.requests) + RecoveryDeletes(attempts, Outcome(committed, unknown))
      ensures log.records == old(log.records) + RecoveryRecords(attempts, Outcome(committed, unknown), Answers(removed))
      ensures OnlySent(Reverse(attempts), Outcome(committed, unknown), removed)
      ensures backend.answers
           == old(backend.answers) + AnswersFor(Reverse(attempts), Outcome(committed, unknown), removed)
    {
      var order := Reverse(attempts);
      ghost var verdict := Outcome(committed, unknown);
      ghost var requests, records, answers := [], [], [];
      removed := [];
      var i := 0;
      Unmoved(backend, log);
      while i < |order|
        invariant 0 <= i <= |order|
        invariant Recovered(order[..i], verdict, removed, requests, records, answers)
        invariant backend.requests == old(backend.requests) + requests
        invariant log.records == old(log.records) + records
        invariant backend.answers == old(backend.answers) + answers
      {
        var attempt := order[i];
        var ok := RecoverAttempt(attempt, backend, log, unknown);
        RecoveredNext(order, i, verdict, removed, requests, records, answers, ok);
        ghost var answered := if verdict.RolledBack? && attempt.version.Some? then [ok] else [];
        Assoc(old(backend.requests), requests, DeletesFor([attempt], verdict));
        Assoc(old(log.records), records, [Record(attempt, AttemptNote(attempt, verdict, ok))]);
        Assoc(old(backend.answers), answers, answered);
        requests := requests + DeletesFor([attempt], verdict);
        records := records + [Record(attempt, AttemptNote(attempt, verdict, ok))];
        answers := answers + answered;
        removed := removed + [ok];
        i := i + 1;
      }
      assert order[..i] == order;
      RecoveryDone(attempts, verdict, removed);
    }

    /** Never deletes after a commit or an unknown outcome; one record each, newest write first. */
    method Recover(backend: Backend, log: AccessLog, unknown: bool) returns (removed: seq<bool>)
      modifies this`knownRollback, backend, log`records
      ensures knownRollback == (!unknown && !committed)
      ensures backend.requests == old(backend.requests) + RecoveryDeletes(attempts, Outcome(committed, unknown))
      ensures log.records == old(log.records)
                + RecoveryRecords(attempts, Outcome(committed, unknown), Answers(removed))
                + DiscardRecords(deletions, Outcome(committed, unknown))
      ensures OnlySent(Reverse(attempts), Outcome(committed, unknown), removed)
      ensures backend.answers
           == old(backend.answers) + AnswersFor(Reverse(attempts), Outcome(committed, unknown), removed)
    {
      knownRollback := !unknown && !committed;
      removed := RecoverAttempts(backend, log, unknown);
      RecoverDiscards(log, Outcome(committed, unknown));
    }

    method RecoverDiscards(log: AccessLog, verdict: Verdict)
      modifies log`records
      ensures log.records == old(log.records) + DiscardRecords(deletions, verdict)
    {
      var i := 0;
      while i < |deletions|
        invariant 0 <= i <= |deletions|
        invariant log.records == old(log.records) + DiscardRecords(deletions, verdict)[..i]
      {
        log.RecordRecovery(deletions[i], DiscardNote(verdict));
        i := i + 1;
      }
    }

    /** One discard: deleted, then its audit row updated; whatever fails leaves a record. */
    method FinishDeletion(deletion: Attempt, backend: Backend, log: AccessLog) returns (removed: bool, complete: bool)
      requires deletion.version.Some?
      modifies backend, log`records, log`marks
      ensures backend.requests == old(backend.requests) + [Target(deletion.path, deletion.version.value)]
      ensures backend.answers == old(backend.answers) + [removed]
      ensures log.marks == old(log.marks) + (if removed then [AuditUpdate(deletion.audit, complete)] else [])
      ensures complete ==> removed && deletion.audit.Some? && deletion.audit.value in log.rows
      ensures log.records
           == old(log.records) + (if complete then [] else [Record(deletion, DiscardCleanupIncomplete)])
    {
      removed := backend.Delete(Target(deletion.path, deletion.version.value));
      complete := false;
      if removed {
        complete := log.MarkDone(deletion.audit);
      }
      if !complete {
        log.RecordRecovery(deletion, DiscardCleanupIncomplete);
      }
      assert old(log.marks) + [] == old(log.marks) && old(log.records) + [] == old(log.records);
    }

    /**
     * Refuses without a confirmed commit; otherwise deletes each staged version
     * once, in order. A discard is done exactly when its delete succeeded and then
     * its audit row was updated.
     */
    method FinishDeletions(backend: Backend, log: AccessLog) returns (ok: bool, done: seq<bool>, ghost sent: seq<bool>)
      requires forall i :: 0 <= i < |deletions| ==> deletions[i].version.Some?
      modifies backend, log`records, log`marks
      ensures backend.answers == old(backend.answers) + sent
      ensures deletions != [] && !committed ==>
                && !ok && backend.requests == old(backend.requests) && log.records == old(log.records)
                && sent == [] && log.marks == old(log.marks)
      ensures deletions == [] || committed ==>
                && |done| == |sent| == |deletions|
                && log.marks == old(log.marks) + MarksFor(deletions, sent, done)
                && (forall i :: 0 <= i < |done| && done[i] ==>
                      sent[i] && deletions[i].audit.Some? && deletions[i].audit.value in log.rows)
      ensures deletions == [] || committed ==>
                && backend.requests == old(backend.requests) + Targets(deletions)
                && log.records == old(log.records) + CleanupRecords(deletions, Answers(done), 0)
                && ok == (CleanupRecords(deletions, Answers(done), 0) == [])
    {
      done, sent := [], [];
      Unmoved(backend, log);
      if deletions != [] && !committed {
        return false, [], [];
      }
      ghost var requests, records, marks := [], [], [];
      var incomplete := false;
      var i := 0;
      while i < |deletions|
        invariant 0 <= i <= |deletions|
        invariant Cleaned(deletions[..i], done, sent, requests, records, marks)
        invariant backend.requests == old(backend.requests) + requests
        invariant backend.answers == old(backend.answers) + sent
        invariant log.records == old(log.records) + records
        invariant log.marks == old(log.marks) + marks
        invariant forall j :: 0 <= j < i && done[j] ==>
                    sent[j] && deletions[j].audit.Some? && deletions[j].audit.value in log.rows
        invariant incomplete == (records != [])
      {
        var d := deletions[i];
        var removed, complete := FinishDeletion(d, backend, log);
        if !complete {
          incomplete := true;
        }
        CleanedNext(deletions, i, done, sent, requests, records, marks, removed, complete);
        ghost var left := if complete then [] else [Record(d, DiscardCleanupIncomplete)];
        ghost var updated := if removed then [AuditUpdate(d.audit, complete)] else [];
        Assoc(old(backend.requests), requests, [Target(d.path, d.version.value)]);
        Assoc(old(log.records), records, left);
        Assoc(old(log.marks), marks, updated);
        Assoc(old(backend.answers), sent, [removed]);
        requests, records, marks := requests + [Target(d.path, d.version.value)], records + left, marks + updated;
        done, sent := done + [complete], sent + [removed];
        i := i + 1;
      }
      assert deletions[..i] == deletions;
      ok := !incomplete;
    }

    /** Before anything is sent. */
    lemma Unmoved(backend: Backend, log: AccessLog)
      ensures backend.requests + [] == backend.requests && backend.answers + [] == backend.answers
      ensures log.records + [] == log.records && log.marks + [] == log.marks
    {
    }

    /** The checks between the end of the body and the commit. */
    method BodyAccepted(ghost t: Turn, raised: bool, log: AccessLog) returns (may: bool)
      requires t.raised == raised && t.owner.savepoints == []
      requires t.owner.attempts == attempts && t.owner.deletions == deletions && t.owner.failed == failed
      requires t.owner.now.audits == log.rows
      ensures may <==> !raised && MayCommit(t.owner)
    {
      may := false;
      if !raised && !failed {
        may := Witness(log);
      }
    }

    /** The on-commit hooks, in order, until one raises. */
    method RunCommitHooks(hooks: seq<Hook>) returns (raised: Option<Error>)
      modifies this`committed
      ensures HookRun(committed, raised) == RunHooks(hooks, old(committed))
    {
      raised := None;
      var i := 0;
      assert hooks[0..] == hooks;
      while i < |hooks|
        invariant 0 <= i <= |hooks| && raised.None?
        invariant RunHooks(hooks[i..], committed) == RunHooks(hooks, old(committed))
      {
        assert hooks[i..][0] == hooks[i] && hooks[i..][1..] == hooks[i + 1..];
        match hooks[i] {
          case MarkCommitted => committed := true;
          case Callback(error) =>
            if error.Some? {
              raised := error;
              return;
            }
        }
        i := i + 1;
      }
    }

    /** The commit of the outer block and its hooks: the exception that leaves the block, if any. */
    method LeaveBlock(witnessed: bool, e: Ending) returns (leaving: Option<Leaving>)
      requires !committed
      modifies this`committed
      ensures leaving == LeavingOf(witnessed, e) && committed == CommittedBy(witnessed, e)
    {
      leaving := None;
      if !witnessed {
        leaving := Some(BodyError);
      } else if e.commit.CommitFailed? {
        leaving := Some(Later(e.commit.error));
      } else {
        var raised := RunCommitHooks(HooksOf(e));
        if raised.Some? {
          leaving := Some(Later(raised.value));
        }
      }
    }

    /** Leaving through recovery. */
    method ConcludeByRecovery(
      ghost t: Turn, ghost e: Ending, leaving: Leaving, connectionGone: bool, backend: Backend, log: AccessLog)
      returns (answers: seq<bool>)
      requires LeavingOf(!Stopped(t), e) == Some(leaving) && connectionGone == e.connectionGone
      requires t.owner.attempts == attempts && t.owner.deletions == deletions
      requires committed == CommittedBy(!Stopped(t), e)
      modifies this`knownRollback, backend, log`records
      ensures var r := Close(t, e, Answers(answers));
              && !r.normal && r.cleaned == []
              && backend.requests == old(backend.requests) + r.undone
              && log.records == old(log.records) + r.records
              && OnlySent(Reverse(attempts), r.verdict, answers)
              && backend.answers == old(backend.answers) + AnswersFor(Reverse(attempts), r.verdict, answers)
    {
      var unknown := UnknownRollback(leaving, connectionGone);
      answers := Recover(backend, log, unknown);
      ClosedByRecovery(t, e, leaving, Answers(answers));
      Assoc(old(log.records), RecoveryRecords(attempts, Outcome(committed, unknown), Answers(answers)),
            DiscardRecords(deletions, Outcome(committed, unknown)));
    }

    /** Leaving through the cleanup of discards. */
    method ConcludeByCleanup(ghost t: Turn, ghost e: Ending, backend: Backend, log: AccessLog)
      returns (normal: bool, answers: seq<bool>, ghost sent: seq<bool>)
      requires LeavingOf(!Stopped(t), e).None? && t.owner.deletions == deletions
      requires committed == CommittedBy(!Stopped(t), e)
      requires forall i :: 0 <= i < |deletions| ==> deletions[i].version.Some?
      modifies backend, log`records, log`marks
      ensures var r := Close(t, e, Answers(answers));
              && normal == r.normal && r.undone == []
              && backend.requests == old(backend.requests) + r.cleaned
              && log.records == old(log.records) + r.records
      ensures |answers| == |sent| == |deletions| && !Recovers(t, e)
      ensures backend.answers == old(backend.answers) + sent
      ensures log.marks == old(log.marks) + MarksFor(deletions, sent, answers)
      ensures forall i :: 0 <= i < |answers| && answers[i] ==> sent[i]
    {
      HooksOfEnding(e);
      normal, answers, sent := FinishDeletions(backend, log);
      assert Close(t, e, Answers(answers)) == Saga.Finish(t.owner, Answers(answers));
    }

    /** The end of material_transaction, from the body's exit to the last delete. */
    method Conclude(ghost t: Turn, raised: bool, e: Ending, backend: Backend, log: AccessLog)
      returns (normal: bool, answers: seq<bool>, ghost sent: seq<bool>, ghost marks: seq<AuditUpdate>)
      requires t.raised == raised && t.owner.savepoints == []
      requires t.owner.attempts == attempts && t.owner.deletions == deletions && t.owner.failed == failed
      requires t.owner.now.audits == log.rows && !committed
      requires forall i :: 0 <= i < |deletions| ==> deletions[i].version.Some?
      modifies this`committed, this`knownRollback, backend, log`records, log`marks
      ensures var r := Close(t, e, Answers(answers));
              && normal == r.normal
              && backend.requests == old(backend.requests) + r.undone + r.cleaned
              && log.records == old(log.records) + r.records
      ensures backend.answers == old(backend.answers) + sent && log.marks == old(log.marks) + marks
      ensures Answered(t, e, answers, sent, marks)
    {
      var witnessed := BodyAccepted(t, raised, log);
      var leaving := LeaveBlock(witnessed, e);
      if leaving.Some? {
        normal := false;
        ClosedByRecovery(t, e, leaving.value, Answers([]));
        answers := ConcludeByRecovery(t, e, leaving.value, e.connectionGone, backend, log);
        sent, marks := AnswersFor(Reverse(attempts), Close(t, e, Answers(answers)).verdict, answers), [];
      } else {
        normal, answers, sent := ConcludeByCleanup(t, e, backend, log);
        marks := MarksFor(deletions, sent, answers);
      }
    }
  }

  /**
   * The answers the report is about are what happened: in recovery, those to the
   * deletes sent; in cleanup, a discard is done exactly when its delete succeeded
   * and the update of its audit row then did.
   */
  ghost predicate Answered(t: Turn, e: Ending, answers: seq<bool>, sent: seq<bool>, marks: seq<AuditUpdate>) {
    var o := t.owner;
    if Recovers(t, e) then
      var verdict := Close(t, e, Answers(answers)).verdict;
      OnlySent(Reverse(o.attempts), verdict, answers) && sent == AnswersFor(Reverse(o.attempts), verdict, answers)
    else
      && |answers| == |sent| == |o.deletions| && marks == MarksFor(o.deletions, sent, answers)
      && forall i :: 0 <= i < |answers| && answers[i] ==> sent[i]
  }

  /** The exception that leaves the outer block. */
  function LeavingOf(witnessed: bool, e: Ending): Option<Leaving> {
    if !witnessed then Some(BodyError)
    else if e.commit.CommitFailed? then Some(Later(e.commit.error))
    else
      var raised := RunHooks(HooksOf(e), false).raised;
      if raised.Some? then Some(Later(raised.value)) else None
  }

  function CommittedBy(witnessed: bool, e: Ending): bool {
    witnessed && e.commit.CommitDone? && RunHooks(HooksOf(e), false).committed
  }

  /** Recovery acts under the mark of the owner's hook and the test on the exception that left the block. */
  lemma ClosedByRecovery(t: Turn, e: Ending, leaving: Leaving, answers: nat -> bool)
    requires LeavingOf(!Stopped(t), e) == Some(leaving)
    ensures Recovers(t, e)
    ensures var verdict := Outcome(CommittedBy(!Stopped(t), e), UnknownRollback(leaving, e.connectionGone));
            var r := Close(t, e, answers);
            && !r.normal && r.cleaned == [] && r.verdict == verdict
            && r.undone == RecoveryDeletes(t.owner.attempts, verdict)
            && r.records
               == RecoveryRecords(t.owner.attempts, verdict, answers) + DiscardRecords(t.owner.deletions, verdict)
  {
    HooksOfEnding(e);
  }
}
