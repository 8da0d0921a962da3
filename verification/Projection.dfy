/**
 * Deferred metadata projection: assignment writers capture the owners to refresh,
 * commit, and leave one publisher per owner; each publisher reloads the committed
 * rows under a per-credential advisory lock that a credential deletion also takes.
 * Writers, publishers and deletions interleave freely; any publisher may fail.
 */
module Projection {
  import opened Prelude

  /** A committed assignment: its credential and the object it names. */
  datatype Row = Row(credential: nat, target: nat)

  /** The part of the custom metadata that lists a credential's assignments. */
  type Listing = map<nat, nat>

  function Proj(rows: map<nat, Row>, c: nat): Listing {
    map a | a in rows && rows[a].credential == c :: rows[a].target
  }

  /** One on-commit callback: the transaction that registered it and its credential. */
  datatype Tag = Tag(txn: nat, credential: nat)

  datatype Stage = Queued | Checked | Locked | Loaded | HasRead(snapshot: Listing) | Written | Done

  /** A write between its pre-save read and its row lock; `deferred` are the owners it will refresh. */
  datatype Pending = Pending(assignment: nat, row: Option<Row>, deferred: set<nat>)

  datatype Txn = Txn(overlay: map<nat, Option<Row>>, touched: set<nat>, doomed: set<nat>, pending: Option<Pending>)

  datatype Holder = ByTask(tag: Tag) | ByTxn(txn: nat)

  datatype Note = Gone(credential: nat) | SetMeta(credential: nat) | Destroyed(credential: nat)

  /** `lagging` are the credentials whose last publication was lost before it took effect. */
  datatype Sys = Sys(
    rows: map<nat, Row>,
    alive: set<nat>,
    gone: set<nat>,
    published: map<nat, Listing>,
    txns: map<nat, Txn>,
    started: set<nat>,
    tasks: map<Tag, Stage>,
    holder: map<nat, Holder>,
    lagging: set<nat>,
    destroys: set<nat>,
    log: seq<Note>)

  datatype Action =
    | Create(c: nat)
    | Begin(t: nat)
    | CaptureSave(t: nat, a: nat, row: Row)
    | CaptureDelete(t: nat, a: nat, loaded: nat)
    | ApplyEdit(t: nat)
    | LockForDelete(t: nat, c: nat)
    | Commit(t: nat)
    | RollBack(t: nat)
    | Step(tag: Tag)
    | Fail(tag: Tag, applied: bool)
    | Destroy(c: nat, applied: bool)

  /** What the transaction itself sees of one assignment. */
  function Seen(rows: map<nat, Row>, x: Txn, a: nat): Option<Row> {
    if a in x.overlay then x.overlay[a] else if a in rows then Some(rows[a]) else None
  }

  function Owner(r: Option<Row>): set<nat> {
    if r.Some? then {r.value.credential} else {}
  }

  function Merge(rows: map<nat, Row>, x: Txn): map<nat, Row> {
    map a | a in rows.Keys + x.overlay.Keys && Seen(rows, x, a).Some? :: Seen(rows, x, a).value
  }

  /** No other open transaction holds the assignment's row lock. */
  predicate RowFree(s: Sys, t: nat, a: nat) {
    forall u :: u in s.txns && u != t ==> a !in s.txns[u].overlay
  }

  predicate Holds(stage: Stage) {
    stage.Locked? || stage.Loaded? || stage.HasRead? || stage.Written?
  }

  predicate Enabled(s: Sys, act: Action) {
    match act
    case Create(c) => c !in s.alive && c !in s.gone
    case Begin(t) => t !in s.started
    case CaptureSave(t, _, _) => t in s.txns && s.txns[t].pending.None?
    case CaptureDelete(t, _, _) => t in s.txns && s.txns[t].pending.None?
    case ApplyEdit(t) => t in s.txns && s.txns[t].pending.Some? && RowFree(s, t, s.txns[t].pending.value.assignment)
    case LockForDelete(t, c) => t in s.txns && (c in s.holder ==> s.holder[c] == ByTxn(t))
    case Commit(t) =>
      && t in s.txns && s.txns[t].pending.None?
      && (forall a :: a in Merge(s.rows, s.txns[t]) ==>
            Merge(s.rows, s.txns[t])[a].credential in s.alive - s.txns[t].doomed)
    case RollBack(t) => t in s.txns
    case Step(tag) =>
      && tag in s.tasks && !s.tasks[tag].Done?
      && (s.tasks[tag].Checked? ==> tag.credential !in s.holder)
    case Fail(tag, _) => tag in s.tasks && !s.tasks[tag].Done?
    case Destroy(c, _) => c in s.destroys
  }

  function SetTxn(s: Sys, t: nat, x: Txn): Sys {
    s.(txns := s.txns[t := x])
  }

  /** The transaction ends: its advisory locks and row locks go with it. */
  function EndTxn(s: Sys, t: nat): Sys {
    s.(txns := s.txns - {t}, holder := map c | c in s.holder && s.holder[c] != ByTxn(t) :: s.holder[c])
  }

  /** The log entries of the credentials a transaction deleted, in some order. */
  function Notes(cs: set<nat>): seq<Note> {
    if cs == {} then [] else
      var c := Least(cs);
      [Gone(c)] + Notes(cs - {c})
  }

  ghost predicate IsLeast(cs: set<nat>, c: nat) {
    c in cs && (forall d :: d in cs ==> c <= d)
  }

  function Least(cs: set<nat>): (c: nat)
    requires cs != {}
    ensures IsLeast(cs, c)
  {
    LeastExists(cs);
    var c :| c in cs && (forall d :: d in cs ==> c <= d);
    c
  }

  lemma {:induction false} LeastExists(cs: set<nat>)
    requires cs != {}
    ensures exists c :: IsLeast(cs, c)
    decreases |cs|
  {
    var c :| c in cs;
    var rest := cs - {c};
    if rest == {} {
      assert cs == {c} && IsLeast(cs, c);
    } else {
      LeastExists(rest);
      var m :| IsLeast(rest, m);
      assert forall d :: d in cs ==> d == c || d in rest;
      assert IsLeast(cs, if m < c then m else c);
    }
  }

  /** The row lock is taken and the edit made. */
  function Applied(s: Sys, t: nat): Sys
    requires t in s.txns && s.txns[t].pending.Some?
  {
    var x := s.txns[t];
    var e := x.pending.value;
    SetTxn(s, t, x.(overlay := x.overlay[e.assignment := e.row], touched := x.touched + e.deferred, pending := None))
  }

  function CommitTxn(s: Sys, t: nat): Sys
    requires t in s.txns
  {
    var x := s.txns[t];
    EndTxn(s, t).(
      rows := Merge(s.rows, x),
      alive := s.alive - x.doomed,
      gone := s.gone + x.doomed,
      tasks := s.tasks + (map c | c in x.touched :: Tag(t, c) := Queued),
      destroys := s.destroys + x.doomed,
      log := s.log + Notes(x.doomed))
  }

  /** Where a publisher goes next: it stops at a credential that is gone, and reads the committed rows once. */
  function NextStage(stage: Stage, present: bool, now: Listing): Stage {
    match stage
    case Queued => if present then Checked else Done
    case Checked => Locked
    case Locked => if present then Loaded else Done
    case Loaded => HasRead(now)
    case HasRead(_) => Written
    case Written => Done
    case Done => Done
  }

  /** The advisory lock is held from the lock step to the end of the publisher's transaction. */
  function NextHolder(holder: map<nat, Holder>, tag: Tag, before: Stage, after: Stage): map<nat, Holder> {
    if Holds(after) then holder[tag.credential := ByTask(tag)]
    else if Holds(before) then holder - {tag.credential}
    else holder
  }

  function StepTask(s: Sys, tag: Tag): Sys
    requires tag in s.tasks && !s.tasks[tag].Done?
  {
    var c := tag.credential;
    var stage := s.tasks[tag];
    var next := NextStage(stage, c in s.alive, Proj(s.rows, c));
    s.(tasks := s.tasks[tag := next],
       holder := NextHolder(s.holder, tag, stage, next),
       lagging := if stage.Loaded? then s.lagging - {c} else s.lagging,
       published := if stage.HasRead? then s.published[c := stage.snapshot] else s.published,
       log := if stage.HasRead? then s.log + [SetMeta(c)] else s.log)
  }

  /** The publisher is lost; an answerless call may still have been applied. */
  function FailTask(s: Sys, tag: Tag, applied: bool): Sys
    requires tag in s.tasks && !s.tasks[tag].Done?
  {
    var c := tag.credential;
    var stage := s.tasks[tag];
    var written := stage.HasRead? && applied;
    s.(tasks := s.tasks[tag := Done],
       holder := NextHolder(s.holder, tag, stage, Done),
       lagging := if written || stage.Written? then s.lagging else s.lagging + {c},
       published := if written then s.published[c := stage.snapshot] else s.published,
       log := if written then s.log + [SetMeta(c)] else s.log)
  }

  function Do(s: Sys, act: Action): Sys
    requires Enabled(s, act)
  {
    match act
    case Create(c) => s.(alive := s.alive + {c})
    case Begin(t) => SetTxn(s, t, Txn(map[], {}, {}, None)).(started := s.started + {t})
    case CaptureSave(t, a, row) =>
      var x := s.txns[t];
      SetTxn(s, t, x.(pending := Some(Pending(a, Some(row), Owner(Seen(s.rows, x, a)) + {row.credential}))))
    case CaptureDelete(t, a, loaded) => SetTxn(s, t, s.txns[t].(pending := Some(Pending(a, None, {loaded}))))
    case ApplyEdit(t) => Applied(s, t)
    case LockForDelete(t, c) =>
      SetTxn(s, t, s.txns[t].(doomed := s.txns[t].doomed + {c})).(holder := s.holder[c := ByTxn(t)])
    case Commit(t) => CommitTxn(s, t)
    case RollBack(t) => EndTxn(s, t)
    case Step(tag) => StepTask(s, tag)
    case Fail(tag, applied) => FailTask(s, tag, applied)
    case Destroy(c, applied) =>
      s.(destroys := s.destroys - {c}, log := if applied then s.log + [Destroyed(c)] else s.log)
  }

  predicate Legal(s: Sys, run: seq<Action>)
    decreases |run|
  {
    run == [] || (Enabled(s, run[0]) && Legal(Do(s, run[0]), run[1..]))
  }

  function After(s: Sys, run: seq<Action>): Sys
    requires Legal(s, run)
    decreases |run|
  {
    if run == [] then s else After(Do(s, run[0]), run[1..])
  }

  // ------------------------------------------------------------------
  // Locks and deletion: what every run keeps
  // ------------------------------------------------------------------

  ghost predicate TaskOK(alive: set<nat>, holder: map<nat, Holder>, tag: Tag, stage: Stage) {
    && (Holds(stage) ==> tag.credential in holder && holder[tag.credential] == ByTask(tag))
    && (stage.Loaded? || stage.HasRead? ==> tag.credential in alive)
  }

  ghost predicate TxnLocks(holder: map<nat, Holder>, t: nat, x: Txn) {
    forall c :: c in x.doomed ==> c in holder && holder[c] == ByTxn(t)
  }

  /** Once a deletion is noted nothing publishes the credential, and only noted credentials are destroyed. */
  ghost predicate LogOK(log: seq<Note>) {
    forall i :: 0 <= i < |log| ==>
      && (log[i].SetMeta? ==> Gone(log[i].credential) !in log[..i])
      && (log[i].Destroyed? ==> Gone(log[i].credential) in log[..i])
  }

  ghost predicate Base(s: Sys) {
    && (forall tag :: tag in s.tasks ==> TaskOK(s.alive, s.holder, tag, s.tasks[tag]))
    && (forall t :: t in s.txns ==> TxnLocks(s.holder, t, s.txns[t]))
    && (forall tag :: tag in s.tasks ==> tag.txn in s.started && tag.txn !in s.txns)
    && s.txns.Keys <= s.started
    && s.alive !! s.gone && s.destroys <= s.gone
  }

  ghost predicate Logged(s: Sys) {
    && LogOK(s.log)
    && (forall c :: Gone(c) in s.log <==> c in s.gone)
  }

  lemma {:induction false} NotesAre(cs: set<nat>)
    ensures forall n :: n in Notes(cs) <==> n.Gone? && n.credential in cs
    decreases |cs|
  {
    if cs != {} {
      var c := Least(cs);
      NotesAre(cs - {c});
      assert Notes(cs) == [Gone(c)] + Notes(cs - {c});
    }
  }

  lemma LogAppend(log: seq<Note>, more: seq<Note>)
    requires LogOK(log)
    requires forall n :: n in more ==> n.Gone? || (|more| == 1 && n == more[0])
    requires forall n :: n in more && n.SetMeta? ==> Gone(n.credential) !in log
    requires forall n :: n in more && n.Destroyed? ==> Gone(n.credential) in log
    ensures LogOK(log + more)
  {
    var all := log + more;
    forall i | 0 <= i < |all|
      ensures all[i].SetMeta? ==> Gone(all[i].credential) !in all[..i]
      ensures all[i].Destroyed? ==> Gone(all[i].credential) in all[..i]
    {
      if i < |log| {
        assert all[..i] == log[..i];
      } else {
        assert all[i] == more[i - |log|] && all[i] in more;
        if !all[i].Gone? {
          assert all[..i] == log;
        }
      }
    }
  }

  /** One publisher moves; the advisory lock of its credential changes only between free and its own. */
  lemma BaseMove(s: Sys, s': Sys, tag: Tag, stage: Stage)
    requires Base(s) && tag in s.tasks
    requires s'.tasks == s.tasks[tag := stage] && TaskOK(s'.alive, s'.holder, tag, stage)
    requires s'.alive == s.alive && s'.txns == s.txns && s'.started == s.started
    requires s'.gone == s.gone && s'.destroys == s.destroys
    requires
      && s'.holder == NextHolder(s.holder, tag, s.tasks[tag], stage)
      && (Holds(stage) && !Holds(s.tasks[tag]) ==> tag.credential !in s.holder)
    ensures Base(s')
  {
    assert TaskOK(s.alive, s.holder, tag, s.tasks[tag]);
    forall u | u in s'.tasks
      ensures TaskOK(s'.alive, s'.holder, u, s'.tasks[u])
    {
      if u != tag {
        assert TaskOK(s.alive, s.holder, u, s.tasks[u]);
      }
    }
    forall t | t in s'.txns
      ensures TxnLocks(s'.holder, t, s'.txns[t])
    {
      assert TxnLocks(s.holder, t, s.txns[t]);
    }
  }

  lemma BaseStep(s: Sys, tag: Tag)
    requires Base(s) && Enabled(s, Step(tag))
    ensures Base(StepTask(s, tag))
  {
    var s' := StepTask(s, tag);
    assert TaskOK(s.alive, s.holder, tag, s.tasks[tag]);
    BaseMove(s, s', tag, s'.tasks[tag]);
  }

  lemma BaseFail(s: Sys, tag: Tag, applied: bool)
    requires Base(s) && Enabled(s, Fail(tag, applied))
    ensures Base(FailTask(s, tag, applied))
  {
    BaseMove(s, FailTask(s, tag, applied), tag, Done);
  }

  lemma BaseEnd(s: Sys, t: nat)
    requires Base(s) && t in s.txns
    ensures Base(EndTxn(s, t))
  {
    var s' := EndTxn(s, t);
    forall u | u in s'.tasks
      ensures TaskOK(s'.alive, s'.holder, u, s'.tasks[u])
    {
      assert TaskOK(s.alive, s.holder, u, s.tasks[u]);
    }
    forall u | u in s'.txns
      ensures TxnLocks(s'.holder, u, s'.txns[u])
    {
      assert TxnLocks(s.holder, u, s.txns[u]);
    }
  }

  /** A deletion commits while holding the advisory lock, so no publisher past its reload loses its row. */
  lemma BaseCommit(s: Sys, t: nat)
    requires Base(s) && Enabled(s, Commit(t))
    ensures Base(CommitTxn(s, t))
  {
    BaseEnd(s, t);
    var s1 := EndTxn(s, t);
    var s' := CommitTxn(s, t);
    assert TxnLocks(s.holder, t, s.txns[t]);
    forall u | u in s'.tasks
      ensures TaskOK(s'.alive, s'.holder, u, s'.tasks[u]) && u.txn in s'.started && u.txn !in s'.txns
    {
      if u in s.tasks && u.txn != t {
        assert TaskOK(s.alive, s.holder, u, s.tasks[u]) && TaskOK(s1.alive, s1.holder, u, s1.tasks[u]);
      }
    }
    forall u | u in s'.txns
      ensures TxnLocks(s'.holder, u, s'.txns[u])
    {
      assert TxnLocks(s1.holder, u, s1.txns[u]);
    }
  }

  /**
   * What a commit leaves: each row as the transaction last wrote it, or as it
   * was; the deleted credentials gone, each with its destruction still to come;
   * one queued publisher for each owner captured; no lock of its own.
   */
  lemma CommitLeaves(s: Sys, t: nat)
    requires Base(s) && Enabled(s, Commit(t))
    ensures var x, s' := s.txns[t], Do(s, Commit(t));
            && (forall a, row :: (a in s'.rows && s'.rows[a] == row)
                  <==> if a in x.overlay then x.overlay[a] == Some(row) else a in s.rows && s.rows[a] == row)
            && (forall c :: c in x.doomed ==> c !in s'.alive && c in s'.destroys && Gone(c) in s'.log)
            && (forall c :: c !in x.doomed ==>
                  && (c in s'.alive <==> c in s.alive) && (c in s'.destroys <==> c in s.destroys)
                  && (Gone(c) in s'.log <==> Gone(c) in s.log))
            && (forall tag :: tag in s'.tasks && tag !in s.tasks ==> tag.txn == t && tag.credential in x.touched)
            && (forall c :: c in x.touched ==> Tag(t, c) in s'.tasks && s'.tasks[Tag(t, c)] == Queued)
            && (forall tag :: tag in s.tasks ==> tag in s'.tasks && s'.tasks[tag] == s.tasks[tag])
            && (forall c :: c in s'.holder ==> c in s.holder && s'.holder[c] == s.holder[c] != ByTxn(t))
            && t !in s'.txns && s'.published == s.published
  {
    NotesAre(s.txns[t].doomed);
    assert s.log <= Do(s, Commit(t)).log;
  }

  /** The owner loaded with a deleted assignment is refreshed, and is the current one unless the row changed. */
  lemma DeleteCaptures(s: Sys, t: nat, a: nat, loaded: nat, s': Sys)
    requires Enabled(s, CaptureDelete(t, a, loaded)) && t in s'.txns && a !in s'.txns[t].overlay
    requires s'.txns[t] == Do(s, CaptureDelete(t, a, loaded)).txns[t]
    ensures s'.txns[t].pending == Some(Pending(a, None, s'.txns[t].pending.value.deferred))
    ensures loaded in s'.txns[t].pending.value.deferred
    ensures a in s'.rows && s'.rows[a].credential == loaded ==> FreshEdit(s', t)
  {
  }

  /** A publisher that does not find its credential, before or under the lock, stops there and publishes nothing. */
  lemma StopsWhenGone(s: Sys, tag: Tag)
    requires Enabled(s, Step(tag)) && (s.tasks[tag].Queued? || s.tasks[tag].Locked?) && tag.credential !in s.alive
    ensures var s' := Do(s, Step(tag));
            s'.tasks == s.tasks[tag := Done] && s'.published == s.published && s'.log == s.log
  {
  }

  /**
   * The store's metadata of a credential changes only by a step of one of its
   * publishers that has read the committed rows, to what it read, and only
   * together with its entry in the log; a publisher lost before that changes nothing.
   */
  lemma PublishedIsLogged(s: Sys, act: Action, c: nat)
    requires Enabled(s, act)
    ensures var s' := Do(s, act);
            (c in s'.published) != (c in s.published)
            || (c in s.published && s'.published[c] != s.published[c]) ==>
              && (act.Step? || (act.Fail? && act.applied)) && act.tag.credential == c && s.tasks[act.tag].HasRead?
              && s'.published == s.published[c := s.tasks[act.tag].snapshot] && s'.log == s.log + [SetMeta(c)]
    ensures act.Fail? && !act.applied ==>
      Do(s, act).published == s.published && Do(s, act).log == s.log && Do(s, act).tasks == s.tasks[act.tag := Done]
    ensures act.Step? && s.tasks[act.tag].HasRead? ==>
      Do(s, act).published == s.published[act.tag.credential := s.tasks[act.tag].snapshot]
  {
  }

  /** The owner captured before a save is the current one unless the row changed meanwhile. */
  lemma CaptureIsFresh(s: Sys, t: nat, a: nat, row: Row, s': Sys)
    requires Enabled(s, CaptureSave(t, a, row)) && t in s'.txns
    requires s'.txns[t] == Do(s, CaptureSave(t, a, row)).txns[t]
    ensures s'.txns[t].pending.Some? && s'.txns[t].pending.value.assignment == a
    ensures s'.txns[t].pending.value.row == Some(row) && row.credential in s'.txns[t].pending.value.deferred
    ensures (a in s.rows <==> a in s'.rows) && (a in s.rows ==> s.rows[a] == s'.rows[a]) ==> FreshEdit(s', t)
  {
  }

  lemma BaseWriter(s: Sys, act: Action)
    requires Base(s) && Enabled(s, act)
    requires act.Begin? || act.CaptureSave? || act.CaptureDelete? || act.ApplyEdit? || act.LockForDelete?
    ensures Base(Do(s, act))
  {
    var s' := Do(s, act);
    forall u | u in s'.tasks
      ensures TaskOK(s'.alive, s'.holder, u, s'.tasks[u]) && u.txn !in s'.txns
    {
      assert TaskOK(s.alive, s.holder, u, s.tasks[u]);
    }
    forall u | u in s'.txns
      ensures TxnLocks(s'.holder, u, s'.txns[u])
    {
      if u in s.txns {
        assert TxnLocks(s.holder, u, s.txns[u]);
      }
    }
  }

  lemma BaseDo(s: Sys, act: Action)
    requires Base(s) && Enabled(s, act)
    ensures Base(Do(s, act))
  {
    match act {
      case Step(tag) => BaseStep(s, tag);
      case Fail(tag, applied) => BaseFail(s, tag, applied);
      case Commit(t) => BaseCommit(s, t);
      case RollBack(t) => BaseEnd(s, t);
      case Create(c) =>
        forall u | u in s.tasks
          ensures TaskOK(s.alive + {c}, s.holder, u, s.tasks[u])
        {
          assert TaskOK(s.alive, s.holder, u, s.tasks[u]);
        }
      case Destroy(_, _) =>
      case _ => BaseWriter(s, act);
    }
  }

  lemma LogAppendOne(s: Sys, tag: Tag)
    requires Base(s) && Logged(s) && tag in s.tasks && s.tasks[tag].HasRead?
    ensures LogOK(s.log + [SetMeta(tag.credential)])
  {
    assert TaskOK(s.alive, s.holder, tag, s.tasks[tag]);
    LogAppend(s.log, [SetMeta(tag.credential)]);
  }

  lemma LoggedTask(s: Sys, tag: Tag, applied: bool)
    requires Base(s) && Logged(s) && tag in s.tasks && !s.tasks[tag].Done?
    ensures Logged(StepTask(s, tag)) && Logged(FailTask(s, tag, applied))
  {
    if s.tasks[tag].HasRead? {
      LogAppendOne(s, tag);
    }
  }

  lemma LoggedCommit(s: Sys, t: nat)
    requires Base(s) && Logged(s) && t in s.txns
    ensures Logged(CommitTxn(s, t))
  {
    NotesAre(s.txns[t].doomed);
    LogAppend(s.log, Notes(s.txns[t].doomed));
  }

  lemma LoggedDo(s: Sys, act: Action)
    requires Base(s) && Logged(s) && Enabled(s, act)
    ensures Logged(Do(s, act))
  {
    match act {
      case Step(tag) => LoggedTask(s, tag, true);
      case Fail(tag, applied) => LoggedTask(s, tag, applied);
      case Commit(t) => LoggedCommit(s, t);
      case Destroy(c, _) => LogAppend(s.log, [Destroyed(c)]);
      case _ =>
    }
  }

  lemma {:induction false} LoggedRun(s: Sys, run: seq<Action>)
    requires Base(s) && Logged(s) && Legal(s, run)
    ensures Base(After(s, run)) && Logged(After(s, run))
    decreases |run|
  {
    if run != [] {
      BaseDo(s, run[0]);
      LoggedDo(s, run[0]);
      LoggedRun(Do(s, run[0]), run[1..]);
    }
  }

  /** Nothing in flight: no transaction, publisher, lock, deletion or history. */
  ghost predicate Quiet(s: Sys) {
    && s.txns == map[] && s.tasks == map[] && s.holder == map[]
    && s.gone == {} && s.destroys == {} && s.log == [] && s.lagging == {}
  }

  /**
   * In every run no publication follows the committed deletion of its
   * credential, every destruction follows one, and so no publication follows a
   * destruction.
   */
  lemma NoResurrection(s: Sys, run: seq<Action>, i: nat, j: nat)
    requires Quiet(s) && Legal(s, run) && i < j < |After(s, run).log|
    ensures var log := After(s, run).log;
            && (log[i].Gone? ==> log[j] != SetMeta(log[i].credential))
            && (log[i].Destroyed? ==> log[j] != SetMeta(log[i].credential))
            && (log[j].Destroyed? ==> Gone(log[j].credential) in log[..j])
  {
    LoggedRun(s, run);
    var log := After(s, run).log;
    if log[i].Gone? {
      assert log[i] in log[..j];
    }
    if log[i].Destroyed? {
      var k :| 0 <= k < i && log[k] == Gone(log[i].credential);
      assert log[k] in log[..j];
    }
  }

  // ------------------------------------------------------------------
  // Convergence
  // ------------------------------------------------------------------

  function Shown(published: map<nat, Listing>, c: nat): Listing {
    if c in published then published[c] else map[]
  }

  predicate PreRead(stage: Stage) {
    stage.Queued? || stage.Checked? || stage.Locked? || stage.Loaded?
  }

  /** Some publisher of the credential has still to read the committed rows. */
  ghost predicate Settling(tasks: map<Tag, Stage>, c: nat) {
    exists tag :: tag in tasks && tag.credential == c && PreRead(tasks[tag])
  }

  ghost predicate Reading(tasks: map<Tag, Stage>, c: nat) {
    exists tag :: tag in tasks && tag.credential == c && tasks[tag].HasRead?
  }

  ghost predicate SnapsCurrent(tasks: map<Tag, Stage>, c: nat, now: Listing) {
    forall tag :: tag in tasks && tag.credential == c && tasks[tag].HasRead? ==> tasks[tag].snapshot == now
  }

  /** The listing is current, or about to be made so. */
  ghost predicate FreshFor(tasks: map<Tag, Stage>, c: nat, shown: Listing, now: Listing) {
    Settling(tasks, c) || (SnapsCurrent(tasks, c, now) && (Reading(tasks, c) || shown == now))
  }

  ghost predicate AllFresh(s: Sys) {
    forall c :: c in s.alive && c !in s.lagging ==>
      FreshFor(s.tasks, c, Shown(s.published, c), Proj(s.rows, c))
  }

  /** Every owner whose rows the transaction changes is among those it will refresh. */
  ghost predicate Covered(rows: map<nat, Row>, x: Txn) {
    forall a :: a in x.overlay ==>
      && (a in rows ==> rows[a].credential in x.touched)
      && Owner(x.overlay[a]) <= x.touched
  }

  ghost predicate Writers(s: Sys) {
    && (forall t :: t in s.txns ==> Covered(s.rows, s.txns[t]))
    && (forall t :: t in s.txns && s.txns[t].pending.Some? ==>
          Owner(s.txns[t].pending.value.row) <= s.txns[t].pending.value.deferred)
    && (forall t, u, a :: t in s.txns && u in s.txns && t != u && a in s.txns[t].overlay ==> a !in s.txns[u].overlay)
  }

  /** Foreign keys hold, and nothing was published for a credential that never existed. */
  ghost predicate Keyed(s: Sys) {
    && (forall a :: a in s.rows ==> s.rows[a].credential in s.alive)
    && s.published.Keys <= s.alive + s.gone
  }

  ghost predicate Conv(s: Sys) {
    Base(s) && Keyed(s) && Writers(s) && AllFresh(s)
  }

  /**
   * The owners captured for the edit include the row's owner at the moment the
   * row lock is taken. It fails exactly when another transaction moved the
   * assignment between the capture and the row lock.
   */
  predicate FreshEdit(s: Sys, t: nat)
    requires t in s.txns && s.txns[t].pending.Some?
  {
    var x := s.txns[t];
    var a := x.pending.value.assignment;
    a in s.rows && a !in x.overlay ==> s.rows[a].credential in x.touched + x.pending.value.deferred
  }

  predicate FreshRun(s: Sys, run: seq<Action>)
    requires Legal(s, run)
    decreases |run|
  {
    run == [] ||
      ((run[0].ApplyEdit? ==> FreshEdit(s, run[0].t)) && FreshRun(Do(s, run[0]), run[1..]))
  }

  /** Credentials the transaction does not refresh keep their rows. */
  lemma UntouchedProj(rows: map<nat, Row>, x: Txn, c: nat)
    requires Covered(rows, x) && c !in x.touched
    ensures Proj(Merge(rows, x), c) == Proj(rows, c)
  {
    forall a
      ensures a in Proj(Merge(rows, x), c) <==> a in Proj(rows, c)
      ensures a in Proj(rows, c) ==> Proj(Merge(rows, x), c)[a] == Proj(rows, c)[a]
    {
      if a in x.overlay && a in Merge(rows, x) {
        assert Merge(rows, x)[a] == x.overlay[a].value;
      }
    }
  }

  lemma OthersFresh(tasks: map<Tag, Stage>, tag: Tag, stage: Stage, c: nat, shown: Listing, now: Listing)
    requires tag.credential != c && FreshFor(tasks, c, shown, now)
    ensures FreshFor(tasks[tag := stage], c, shown, now)
  {
    var tasks' := tasks[tag := stage];
    if Settling(tasks, c) {
      var u :| u in tasks && u.credential == c && PreRead(tasks[u]);
      assert u in tasks' && tasks'[u] == tasks[u];
    } else if Reading(tasks, c) {
      var u :| u in tasks && u.credential == c && tasks[u].HasRead?;
      assert u in tasks' && tasks'[u] == tasks[u];
    }
  }

  lemma CommitFresh(s: Sys, t: nat, c: nat)
    requires AllFresh(s) && t in s.txns && c in s.alive && c !in s.lagging
    requires c !in s.txns[t].touched ==> Proj(Merge(s.rows, s.txns[t]), c) == Proj(s.rows, c)
    ensures FreshFor(CommitTxn(s, t).tasks, c, Shown(s.published, c), Proj(Merge(s.rows, s.txns[t]), c))
  {
    var x := s.txns[t];
    var tasks' := CommitTxn(s, t).tasks;
    if c in x.touched {
      assert Tag(t, c) in tasks' && tasks'[Tag(t, c)] == Queued;
    } else {
      assert forall u :: u in tasks' && u.credential == c ==> u in s.tasks;
      if Settling(s.tasks, c) {
        var u :| u in s.tasks && u.credential == c && PreRead(s.tasks[u]);
        assert u in tasks' && tasks'[u] == s.tasks[u];
      } else if Reading(s.tasks, c) {
        var u :| u in s.tasks && u.credential == c && s.tasks[u].HasRead?;
        assert u in tasks' && tasks'[u] == s.tasks[u];
      }
    }
  }

  /** The advisory lock keeps a second publisher of the credential away from the read and the write. */
  lemma OneReader(s: Sys, tag: Tag, u: Tag)
    requires Base(s) && tag in s.tasks && u in s.tasks && u.credential == tag.credential
    requires Holds(s.tasks[tag]) && Holds(s.tasks[u])
    ensures u == tag
  {
    assert TaskOK(s.alive, s.holder, tag, s.tasks[tag]) && TaskOK(s.alive, s.holder, u, s.tasks[u]);
  }

  /** Before its write a publisher only moves closer; after its read its snapshot is the committed listing. */
  lemma StepFreshBefore(s: Sys, tag: Tag)
    requires Base(s) && AllFresh(s) && Enabled(s, Step(tag)) && PreRead(s.tasks[tag]) && tag.credential in s.alive
    ensures FreshFor(StepTask(s, tag).tasks, tag.credential,
                     Shown(s.published, tag.credential), Proj(s.rows, tag.credential))
  {
    var c := tag.credential;
    var tasks' := StepTask(s, tag).tasks;
    if s.tasks[tag].Loaded? {
      assert tasks'[tag] == HasRead(Proj(s.rows, c));
      forall u | u in tasks' && u.credential == c && tasks'[u].HasRead?
        ensures tasks'[u].snapshot == Proj(s.rows, c)
      {
        if u != tag {
          OneReader(s, tag, u);
        }
      }
    } else {
      assert PreRead(tasks'[tag]);
    }
  }

  lemma StepFreshAfter(s: Sys, tag: Tag)
    requires Base(s) && AllFresh(s) && Enabled(s, Step(tag)) && !PreRead(s.tasks[tag])
    requires tag.credential in s.alive && tag.credential !in s.lagging
    ensures FreshFor(StepTask(s, tag).tasks, tag.credential,
                     Shown(StepTask(s, tag).published, tag.credential), Proj(s.rows, tag.credential))
  {
    var c := tag.credential;
    var tasks' := StepTask(s, tag).tasks;
    forall u | u in tasks' && u.credential == c && tasks'[u].HasRead?
      ensures false
    {
      OneReader(s, tag, u);
    }
    assert FreshFor(s.tasks, c, Shown(s.published, c), Proj(s.rows, c));
    if Settling(s.tasks, c) {
      var u :| u in s.tasks && u.credential == c && PreRead(s.tasks[u]);
      assert u in tasks' && tasks'[u] == s.tasks[u];
    } else if Reading(s.tasks, c) {
      var u :| u in s.tasks && u.credential == c && s.tasks[u].HasRead?;
      OneReader(s, tag, u);
    }
  }

  lemma StepFresh(s: Sys, tag: Tag)
    requires Base(s) && AllFresh(s) && Enabled(s, Step(tag))
    ensures AllFresh(StepTask(s, tag))
  {
    var s' := StepTask(s, tag);
    forall c | c in s'.alive && c !in s'.lagging
      ensures FreshFor(s'.tasks, c, Shown(s'.published, c), Proj(s'.rows, c))
    {
      if c != tag.credential {
        OthersFresh(s.tasks, tag, s'.tasks[tag], c, Shown(s.published, c), Proj(s.rows, c));
      } else if PreRead(s.tasks[tag]) {
        StepFreshBefore(s, tag);
      } else {
        StepFreshAfter(s, tag);
      }
    }
  }

  lemma FailFresh(s: Sys, tag: Tag, applied: bool)
    requires Conv(s) && Enabled(s, Fail(tag, applied))
    ensures AllFresh(FailTask(s, tag, applied))
  {
    var s' := FailTask(s, tag, applied);
    forall c | c in s'.alive && c !in s'.lagging
      ensures FreshFor(s'.tasks, c, Shown(s'.published, c), Proj(s'.rows, c))
    {
      if c != tag.credential {
        OthersFresh(s.tasks, tag, Done, c, Shown(s.published, c), Proj(s.rows, c));
      } else {
        FailFreshOwn(s, tag, applied);
      }
    }
  }

  lemma FailFreshOwn(s: Sys, tag: Tag, applied: bool)
    requires Conv(s) && Enabled(s, Fail(tag, applied))
    requires tag.credential in s.alive && tag.credential !in FailTask(s, tag, applied).lagging
    ensures FreshFor(FailTask(s, tag, applied).tasks, tag.credential,
                     Shown(FailTask(s, tag, applied).published, tag.credential), Proj(s.rows, tag.credential))
  {
    var c := tag.credential;
    var tasks' := FailTask(s, tag, applied).tasks;
    forall u | u in tasks' && u.credential == c && tasks'[u].HasRead?
      ensures false
    {
      OneReader(s, tag, u);
    }
    if Settling(s.tasks, c) {
      var u :| u in s.tasks && u.credential == c && PreRead(s.tasks[u]);
      assert u in tasks' && tasks'[u] == s.tasks[u];
    } else if Reading(s.tasks, c) {
      var u :| u in s.tasks && u.credential == c && s.tasks[u].HasRead?;
      OneReader(s, tag, u);
    }
  }

  lemma ApplyKeeps(s: Sys, t: nat)
    requires Writers(s) && Enabled(s, ApplyEdit(t)) && FreshEdit(s, t)
    ensures Writers(Do(s, ApplyEdit(t)))
  {
    var s' := Do(s, ApplyEdit(t));
    assert Covered(s.rows, s.txns[t]);
    assert Covered(s'.rows, s'.txns[t]);
    forall u | u in s'.txns && u != t
      ensures Covered(s'.rows, s'.txns[u])
    {
      assert Covered(s.rows, s.txns[u]);
    }
  }

  lemma CommitKeeps(s: Sys, t: nat)
    requires Conv(s) && Enabled(s, Commit(t))
    ensures Conv(CommitTxn(s, t))
  {
    var s' := CommitTxn(s, t);
    BaseCommit(s, t);
    forall u | u in s'.txns
      ensures Covered(s'.rows, s'.txns[u])
    {
      assert Covered(s.rows, s.txns[u]);
      assert forall a :: a in s.txns[u].overlay ==> a !in s.txns[t].overlay;
    }
    forall c | c in s'.alive && c !in s'.lagging
      ensures FreshFor(s'.tasks, c, Shown(s'.published, c), Proj(s'.rows, c))
    {
      if c !in s.txns[t].touched {
        UntouchedProj(s.rows, s.txns[t], c);
      }
      CommitFresh(s, t, c);
    }
  }

  lemma CreateKeeps(s: Sys, c: nat)
    requires Conv(s) && Enabled(s, Create(c))
    ensures Conv(Do(s, Create(c)))
  {
    BaseDo(s, Create(c));
    var s' := Do(s, Create(c));
    assert Proj(s.rows, c) == map[];
    forall u | u in s.tasks && u.credential == c
      ensures !s.tasks[u].HasRead?
    {
      assert TaskOK(s.alive, s.holder, u, s.tasks[u]);
    }
    assert FreshFor(s'.tasks, c, Shown(s'.published, c), Proj(s'.rows, c));
  }

  lemma WriterCovers(s: Sys, act: Action)
    requires Writers(s) && Enabled(s, act)
    requires act.Begin? || act.CaptureSave? || act.CaptureDelete? || act.LockForDelete?
    ensures Writers(Do(s, act))
  {
    var s' := Do(s, act);
    forall u | u in s'.txns
      ensures Covered(s'.rows, s'.txns[u])
    {
      if u in s.txns {
        assert Covered(s.rows, s.txns[u]);
      }
    }
  }

  /** A writer that does not commit changes neither rows nor publishers. */
  lemma WriterKeeps(s: Sys, act: Action)
    requires Conv(s) && Enabled(s, act)
    requires act.Begin? || act.CaptureSave? || act.CaptureDelete? || act.LockForDelete?
    ensures Conv(Do(s, act))
  {
    BaseWriter(s, act);
    WriterCovers(s, act);
    var s' := Do(s, act);
    assert s'.rows == s.rows && s'.tasks == s.tasks && s'.published == s.published;
  }

  lemma RollBackKeeps(s: Sys, t: nat)
    requires Conv(s) && t in s.txns
    ensures Conv(EndTxn(s, t))
  {
    BaseEnd(s, t);
    assert forall u :: u in EndTxn(s, t).txns ==> Covered(s.rows, s.txns[u]);
  }

  lemma ConvDo(s: Sys, act: Action)
    requires Conv(s) && Enabled(s, act) && (act.ApplyEdit? ==> FreshEdit(s, act.t))
    ensures Conv(Do(s, act))
  {
    match act {
      case Create(c) => CreateKeeps(s, c);
      case ApplyEdit(t) => BaseDo(s, act); ApplyKeeps(s, t);
      case Commit(t) => CommitKeeps(s, t);
      case Step(tag) => BaseDo(s, act); StepFresh(s, tag); TaskKeyed(s, tag, true);
      case Fail(tag, applied) => BaseDo(s, act); FailFresh(s, tag, applied); TaskKeyed(s, tag, applied);
      case Destroy(_, _) => BaseDo(s, act);
      case RollBack(t) => RollBackKeeps(s, t);
      case _ => WriterKeeps(s, act);
    }
  }

  lemma WritersFrame(s: Sys, s': Sys)
    requires Writers(s) && s'.txns == s.txns && s'.rows == s.rows
    ensures Writers(s')
  {
    assert forall t :: t in s'.txns ==> Covered(s.rows, s.txns[t]) && Covered(s'.rows, s'.txns[t]);
  }

  lemma TaskKeyed(s: Sys, tag: Tag, applied: bool)
    requires Conv(s) && tag in s.tasks && !s.tasks[tag].Done?
    ensures Keyed(StepTask(s, tag)) && Writers(StepTask(s, tag))
    ensures Keyed(FailTask(s, tag, applied)) && Writers(FailTask(s, tag, applied))
  {
    assert TaskOK(s.alive, s.holder, tag, s.tasks[tag]);
    WritersFrame(s, StepTask(s, tag));
    WritersFrame(s, FailTask(s, tag, applied));
  }

  lemma {:induction false} ConvRun(s: Sys, run: seq<Action>)
    requires Conv(s) && Legal(s, run) && FreshRun(s, run)
    ensures Conv(After(s, run))
    decreases |run|
  {
    if run != [] {
      ConvDo(s, run[0]);
      ConvRun(Do(s, run[0]), run[1..]);
    }
  }

  /** No publisher of the credential is left to act. */
  ghost predicate Idle(s: Sys, c: nat) {
    forall tag :: tag in s.tasks && tag.credential == c ==> s.tasks[tag].Written? || s.tasks[tag].Done?
  }

  /** What the store lists of the credential is exactly its committed rows, each with the object it names. */
  ghost predicate ConvergedAt(s: Sys, c: nat) {
    && (c in s.published ==> forall a :: a in s.published[c] ==> a in s.rows && s.rows[a] == Row(c, s.published[c][a]))
    && (forall a :: a in s.rows && s.rows[a].credential == c ==>
          c in s.published && a in s.published[c] && s.published[c][a] == s.rows[a].target)
  }

  lemma ConvergedIff(s: Sys, c: nat)
    ensures ConvergedAt(s, c) <==> Shown(s.published, c) == Proj(s.rows, c)
  {
    var shown, now := Shown(s.published, c), Proj(s.rows, c);
    if ConvergedAt(s, c) {
      assert forall a :: a in shown <==> a in now;
      assert forall a :: a in shown ==> shown[a] == now[a];
    }
    if shown == now && c in s.published {
      assert forall a :: a in s.published[c] ==> a in now;
    }
    if shown == now {
      forall a | a in s.rows && s.rows[a].credential == c
        ensures c in s.published && a in s.published[c] && s.published[c][a] == s.rows[a].target
      {
        assert a in now && now[a] == s.rows[a].target;
      }
    }
  }

  ghost predicate Converged(s: Sys) {
    forall c :: c in s.alive ==> ConvergedAt(s, c)
  }

  lemma ConvergedFrame(s: Sys, s': Sys)
    requires Converged(s) && s'.rows == s.rows && s'.published == s.published && s'.alive == s.alive
    ensures Converged(s')
  {
    forall c | c in s'.alive
      ensures ConvergedAt(s', c)
    {
      assert ConvergedAt(s, c);
    }
  }

  /** A plain start: nothing in flight, keys hold, and every listing is current. */
  lemma QuietIsFresh(s: Sys)
    requires Quiet(s) && Keyed(s) && Converged(s)
    ensures Conv(s)
  {
    forall c | c in s.alive
      ensures FreshFor(s.tasks, c, Shown(s.published, c), Proj(s.rows, c))
    {
      assert ConvergedAt(s, c);
      ConvergedIff(s, c);
    }
  }

  /**
   * From a quiet, converged start, in every run whose captured owners are
   * current when the row lock is taken, a surviving credential with no
   * publisher left to act and none lost shows exactly its committed assignments.
   */
  lemma Converges(s: Sys, run: seq<Action>, c: nat)
    requires Quiet(s) && Keyed(s) && Converged(s) && Legal(s, run) && FreshRun(s, run)
    requires var s' := After(s, run); c in s'.alive && c !in s'.lagging && Idle(s', c)
    ensures var s' := After(s, run);
            forall a, x ::
              (c in s'.published && a in s'.published[c] && s'.published[c][a] == x)
              <==> (a in s'.rows && s'.rows[a] == Row(c, x))
  {
    QuietIsFresh(s);
    ConvRun(s, run);
    ConvergedIff(After(s, run), c);
  }

  // ------------------------------------------------------------------
  // Exactly when one commit converges
  // ------------------------------------------------------------------

  /** Only publishers move, and none of them is lost. */
  predicate OnlySteps(run: seq<Action>) {
    forall i :: 0 <= i < |run| ==> run[i].Step?
  }

  ghost predicate AllIdle(s: Sys) {
    forall tag :: tag in s.tasks ==> s.tasks[tag].Written? || s.tasks[tag].Done?
  }

  lemma StepFrame(s: Sys, tag: Tag)
    requires Enabled(s, Step(tag))
    ensures StepTask(s, tag).alive == s.alive && StepTask(s, tag).rows == s.rows
    ensures StepTask(s, tag).lagging <= s.lagging
  {
  }

  lemma {:induction false} StepsKeep(s: Sys, run: seq<Action>)
    requires Base(s) && AllFresh(s) && Legal(s, run) && OnlySteps(run)
    ensures var s' := After(s, run);
            Base(s') && AllFresh(s') && s'.alive == s.alive && s'.rows == s.rows && s'.lagging <= s.lagging
    decreases |run|
  {
    if run != [] {
      var tag := run[0].tag;
      BaseStep(s, tag);
      StepFresh(s, tag);
      StepFrame(s, tag);
      assert OnlySteps(run[1..]);
      assert Do(s, run[0]) == StepTask(s, tag);
      StepsKeep(StepTask(s, tag), run[1..]);
    }
  }

  lemma IdleStep(s: Sys, tag: Tag, c: nat)
    requires Enabled(s, Step(tag)) && Idle(s, c)
    ensures Idle(StepTask(s, tag), c) && Shown(StepTask(s, tag).published, c) == Shown(s.published, c)
  {
  }

  /** Without a publisher of its own, a credential's listing is not touched. */
  lemma {:induction false} IdleStays(s: Sys, run: seq<Action>, c: nat)
    requires Legal(s, run) && OnlySteps(run) && Idle(s, c)
    ensures var s' := After(s, run);
            Shown(s'.published, c) == Shown(s.published, c) && s'.alive == s.alive && s'.rows == s.rows
    decreases |run|
  {
    if run != [] {
      var tag := run[0].tag;
      StepFrame(s, tag);
      IdleStep(s, tag, c);
      assert OnlySteps(run[1..]);
      assert Do(s, run[0]) == StepTask(s, tag);
      IdleStays(StepTask(s, tag), run[1..], c);
    }
  }

  /** The transaction adds, removes or changes a row that is or becomes the credential's. */
  ghost predicate Changes(s: Sys, t: nat, c: nat)
    requires t in s.txns
  {
    var edits := s.txns[t].overlay;
    exists a :: a in edits
      && (if a in s.rows then edits[a] != Some(s.rows[a]) else edits[a].Some?)
      && ((a in s.rows && s.rows[a].credential == c) || (edits[a].Some? && edits[a].value.credential == c))
  }

  /** The transaction refreshes every surviving owner whose listing it changes. */
  ghost predicate Refreshes(s: Sys, t: nat)
    requires t in s.txns
  {
    forall c :: c in s.alive - s.txns[t].doomed && Changes(s, t, c) ==> c in s.txns[t].touched
  }

  lemma ChangesIff(s: Sys, t: nat, c: nat)
    requires t in s.txns
    ensures Changes(s, t, c) <==> Proj(Merge(s.rows, s.txns[t]), c) != Proj(s.rows, c)
  {
    var edits, now, next := s.txns[t].overlay, Proj(s.rows, c), Proj(Merge(s.rows, s.txns[t]), c);
    if Changes(s, t, c) {
      var a :| a in edits && (if a in s.rows then edits[a] != Some(s.rows[a]) else edits[a].Some?)
        && ((a in s.rows && s.rows[a].credential == c) || (edits[a].Some? && edits[a].value.credential == c));
      assert (a in now) != (a in next) || now[a] != next[a];
    } else {
      forall a
        ensures a in now <==> a in next
        ensures a in now && a in next ==> now[a] == next[a]
      {
        assert a in edits ==> if a in s.rows then edits[a] == Some(s.rows[a]) || (s.rows[a].credential != c &&
          !(edits[a].Some? && edits[a].value.credential == c)) else edits[a].None? || edits[a].value.credential != c;
      }
      assert now == next;
    }
  }

  lemma SettledIsFresh(s: Sys)
    requires AllIdle(s) && Converged(s)
    ensures AllFresh(s)
  {
    forall c | c in s.alive
      ensures FreshFor(s.tasks, c, Shown(s.published, c), Proj(s.rows, c))
    {
      assert ConvergedAt(s, c);
      ConvergedIff(s, c);
    }
  }

  lemma CommitAllFresh(s: Sys, t: nat)
    requires AllFresh(s) && s.lagging == {} && t in s.txns && Refreshes(s, t)
    ensures AllFresh(CommitTxn(s, t))
  {
    var s' := CommitTxn(s, t);
    forall c | c in s'.alive
      ensures FreshFor(s'.tasks, c, Shown(s'.published, c), Proj(s'.rows, c))
    {
      ChangesIff(s, t, c);
      CommitFresh(s, t, c);
    }
  }

  lemma IdleIsConverged(s: Sys)
    requires AllFresh(s) && AllIdle(s) && s.lagging == {}
    ensures Converged(s)
  {
    forall c | c in s.alive
      ensures ConvergedAt(s, c)
    {
      assert FreshFor(s.tasks, c, Shown(s.published, c), Proj(s.rows, c));
      ConvergedIff(s, c);
    }
  }

  lemma MissedDiverges(s: Sys, t: nat, rest: seq<Action>, c: nat)
    requires Idle(s, c) && ConvergedAt(s, c) && t in s.txns && c !in s.txns[t].touched
    requires Changes(s, t, c)
    requires Legal(CommitTxn(s, t), rest) && OnlySteps(rest)
    ensures !ConvergedAt(After(CommitTxn(s, t), rest), c)
    ensures After(CommitTxn(s, t), rest).alive == s.alive - s.txns[t].doomed
  {
    assert Idle(CommitTxn(s, t), c);
    IdleStays(CommitTxn(s, t), rest, c);
    ChangesIff(s, t, c);
    ConvergedIff(s, c);
    ConvergedIff(After(CommitTxn(s, t), rest), c);
  }

  /**
   * From a converged state with no publisher left to act, one commit followed
   * by all of its publishers converges if and only if it refreshes every
   * surviving owner whose listing it changed.
   */
  lemma CommitConvergesIff(s: Sys, t: nat, rest: seq<Action>)
    requires Base(s) && AllIdle(s) && Converged(s) && s.lagging == {} && Enabled(s, Commit(t))
    requires Legal(CommitTxn(s, t), rest) && OnlySteps(rest) && AllIdle(After(CommitTxn(s, t), rest))
    ensures Converged(After(CommitTxn(s, t), rest)) <==> Refreshes(s, t)
  {
    var s' := CommitTxn(s, t);
    if Refreshes(s, t) {
      SettledIsFresh(s);
      BaseCommit(s, t);
      CommitAllFresh(s, t);
      StepsKeep(s', rest);
      IdleIsConverged(After(s', rest));
    } else {
      var c :| c in s.alive - s.txns[t].doomed && Changes(s, t, c) && c !in s.txns[t].touched;
      MissedDiverges(s, t, rest, c);
    }
  }

  /** The transaction about to take the row lock for its only edit. */
  ghost predicate SingleEdit(s: Sys, t: nat) {
    && t in s.txns && s.txns[t].overlay == map[] && s.txns[t].touched == {} && s.txns[t].doomed == {}
    && Enabled(s, ApplyEdit(t)) && Owner(s.txns[t].pending.value.row) <= s.txns[t].pending.value.deferred
  }

  /** One save or delete refreshes what it changes exactly when its captured owners include the current one. */
  lemma EditRefreshesIff(s: Sys, t: nat)
    requires SingleEdit(s, t) && Keyed(s)
    ensures Refreshes(Applied(s, t), t) <==> FreshEdit(s, t)
  {
    var s1 := Applied(s, t);
    var e := s.txns[t].pending.value;
    var a := e.assignment;
    var x := s1.txns[t];
    if FreshEdit(s, t) {
      assert Covered(s.rows, x);
      forall c | c in s.alive && c !in x.touched
        ensures !Changes(s1, t, c)
      {
        UntouchedProj(s.rows, x, c);
        ChangesIff(s1, t, c);
      }
    } else {
      var o := s.rows[a].credential;
      assert a in x.overlay && Owner(x.overlay[a]) <= x.touched;
      assert o in s.alive && o !in x.touched && Changes(s1, t, o);
    }
  }

  /**
   * From a converged state, one save or delete of an assignment, its commit and
   * all of its publishers converge if and only if the owner captured before the
   * write was still the owner when the row lock was taken.
   */
  lemma EditConvergesIff(s: Sys, t: nat, rest: seq<Action>)
    requires Base(s) && Keyed(s) && AllIdle(s) && Converged(s) && s.lagging == {} && SingleEdit(s, t)
    requires var s1 := Applied(s, t);
             && Enabled(s1, Commit(t)) && Legal(CommitTxn(s1, t), rest) && OnlySteps(rest)
             && AllIdle(After(CommitTxn(s1, t), rest))
    ensures Converged(After(CommitTxn(Applied(s, t), t), rest)) <==> FreshEdit(s, t)
  {
    var s1 := Applied(s, t);
    BaseDo(s, ApplyEdit(t));
    ConvergedFrame(s, s1);
    CommitConvergesIff(s1, t, rest);
    EditRefreshesIff(s, t);
  }

  // ------------------------------------------------------------------
  // Two reassignments that capture the same previous owner
  // ------------------------------------------------------------------

  lemma {:induction false} AfterConcat(s: Sys, a: seq<Action>, b: seq<Action>)
    requires Legal(s, a) && Legal(After(s, a), b)
    ensures Legal(s, a + b) && After(s, a + b) == After(After(s, a), b)
    decreases |a|
  {
    if a == [] {
      assert a + b == b;
    } else {
      AfterConcat(Do(s, a[0]), a[1..], b);
      assert (a + b)[0] == a[0] && (a + b)[1..] == a[1..] + b;
    }
  }

  /** A whole publication, undisturbed. */
  function Publish(tag: Tag): seq<Action> {
    Steps(tag, 3) + Steps(tag, 3)
  }

  function Steps(tag: Tag, n: nat): seq<Action> {
    if n == 0 then [] else [Step(tag)] + Steps(tag, n - 1)
  }

  lemma {:induction false} StepsAreSteps(tag: Tag, n: nat)
    ensures OnlySteps(Steps(tag, n))
  {
    if n > 0 {
      StepsAreSteps(tag, n - 1);
    }
  }

  function Published(s: Sys, tag: Tag): Sys {
    var c := tag.credential;
    s.(tasks := s.tasks[tag := Done], published := s.published[c := Proj(s.rows, c)],
       lagging := s.lagging - {c}, log := s.log + [SetMeta(c)])
  }

  lemma LegalCons(s: Sys, act: Action, rest: seq<Action>)
    requires Enabled(s, act) && Legal(Do(s, act), rest)
    ensures Legal(s, [act] + rest) && After(s, [act] + rest) == After(Do(s, act), rest)
  {
    assert ([act] + rest)[1..] == rest;
  }

  /** One publisher's place, lock and last effects. */
  function At(s: Sys, tag: Tag, stage: Stage, locked: bool): Sys {
    s.(tasks := s.tasks[tag := stage], holder := if locked then s.holder[tag.credential := ByTask(tag)] else s.holder)
  }

  lemma PublishFirstHalf(s: Sys, tag: Tag)
    requires tag in s.tasks && s.tasks[tag].Queued? && tag.credential in s.alive && tag.credential !in s.holder
    ensures Legal(s, Steps(tag, 3)) && After(s, Steps(tag, 3)) == At(s, tag, Loaded, true)
  {
    var s1 := At(s, tag, Checked, false);
    var s2 := At(s, tag, Locked, true);
    var s3 := At(s, tag, Loaded, true);
    assert StepTask(s, tag) == s1;
    assert s1.tasks[tag := Locked] == s2.tasks && StepTask(s1, tag) == s2;
    assert s2.tasks[tag := Loaded] == s3.tasks && s2.holder[tag.credential := ByTask(tag)] == s3.holder;
    assert StepTask(s2, tag) == s3;
    LegalCons(s2, Step(tag), Steps(tag, 0));
    LegalCons(s1, Step(tag), Steps(tag, 1));
    LegalCons(s, Step(tag), Steps(tag, 2));
  }

  lemma StepReads(s: Sys, tag: Tag)
    requires tag in s.tasks && s.tasks[tag].Loaded?
    requires tag.credential in s.holder && s.holder[tag.credential] == ByTask(tag)
    ensures StepTask(s, tag)
         == s.(tasks := s.tasks[tag := HasRead(Proj(s.rows, tag.credential))], lagging := s.lagging - {tag.credential})
  {
    assert s.holder[tag.credential := ByTask(tag)] == s.holder;
  }

  lemma StepWrites(s: Sys, tag: Tag)
    requires tag in s.tasks && s.tasks[tag].HasRead?
    requires tag.credential in s.holder && s.holder[tag.credential] == ByTask(tag)
    ensures StepTask(s, tag)
         == s.(tasks := s.tasks[tag := Written], published := s.published[tag.credential := s.tasks[tag].snapshot],
               log := s.log + [SetMeta(tag.credential)])
  {
    assert s.holder[tag.credential := ByTask(tag)] == s.holder;
  }

  lemma PublishSecondHalf(s: Sys, tag: Tag)
    requires tag in s.tasks && s.tasks[tag].Loaded?
    requires tag.credential in s.holder && s.holder[tag.credential] == ByTask(tag)
    ensures Legal(s, Steps(tag, 3))
    ensures After(s, Steps(tag, 3)) == Published(s, tag).(holder := s.holder - {tag.credential})
  {
    var s1 := StepTask(s, tag);
    StepReads(s, tag);
    var s2 := StepTask(s1, tag);
    StepWrites(s1, tag);
    var s3 := StepTask(s2, tag);
    assert s3.tasks == s.tasks[tag := Done] && s3.holder == s.holder - {tag.credential};
    LegalCons(s2, Step(tag), Steps(tag, 0));
    LegalCons(s1, Step(tag), Steps(tag, 1));
    LegalCons(s, Step(tag), Steps(tag, 2));
  }

  lemma PublishRun(s: Sys, tag: Tag)
    requires tag in s.tasks && s.tasks[tag].Queued? && tag.credential in s.alive && tag.credential !in s.holder
    ensures Legal(s, Publish(tag)) && After(s, Publish(tag)) == Published(s, tag)
  {
    PublishFirstHalf(s, tag);
    var s3 := At(s, tag, Loaded, true);
    PublishSecondHalf(s3, tag);
    AfterConcat(s, Steps(tag, 3), Steps(tag, 3));
    assert s3.tasks[tag := Done] == s.tasks[tag := Done] && s3.holder - {tag.credential} == s.holder;
  }

  /**
   * From every quiet state a credential without assignments can be deleted, and
   * its material destroyed after the commit.
   */
  lemma DeletionDestroys(s: Sys, t: nat, c: nat)
    requires Quiet(s) && t !in s.started && c in s.alive
    requires forall a :: a in s.rows ==> s.rows[a].credential in s.alive - {c}
    ensures var run := [Begin(t), LockForDelete(t, c), Commit(t), Destroy(c, true)];
            && Legal(s, run)
            && After(s, run).alive == s.alive - {c} && After(s, run).rows == s.rows && c in After(s, run).gone
            && After(s, run).log == [Gone(c), Destroyed(c)]
  {
    var s1 := Do(s, Begin(t));
    var s2 := Do(s1, LockForDelete(t, c));
    assert s2.txns[t] == Txn(map[], {}, {c}, None) && Merge(s.rows, s2.txns[t]) == s.rows;
    var s3 := Do(s2, Commit(t));
    NotesOfOne(c);
    assert s3.log == [Gone(c)];
    LegalCons(s3, Destroy(c, true), []);
    LegalCons(s2, Commit(t), [Destroy(c, true)]);
    LegalCons(s1, LockForDelete(t, c), [Commit(t), Destroy(c, true)]);
    LegalCons(s, Begin(t), [LockForDelete(t, c), Commit(t), Destroy(c, true)]);
  }

  lemma NotesOfOne(c: nat)
    ensures Notes({c}) == [Gone(c)]
  {
    assert Least({c}) == c && {c} - {c} == {};
  }

  /** Writer and publishers of one reassignment from `prior` to the row's new owner, undisturbed. */
  function Reassign(t: nat, prior: nat, next: nat): seq<Action> {
    [ApplyEdit(t), Commit(t)] + (Publish(Tag(t, prior)) + Publish(Tag(t, next)))
  }

  ghost predicate ReadyToMove(s: Sys, t: nat, a: nat, row: Row, prior: nat) {
    && AllIdle(s) && s.holder == map[] && s.lagging == {} && Keyed(s) && SingleEdit(s, t)
    && s.txns[t].pending == Some(Pending(a, Some(row), {prior, row.credential}))
    && prior in s.alive && row.credential in s.alive && prior != row.credential
  }

  /** What the reassignment leaves: the row moved, nothing in flight, nothing else changed. */
  ghost predicate Moved(s: Sys, s': Sys, t: nat, a: nat, row: Row) {
    && s'.rows == s.rows[a := row] && s'.txns == s.txns - {t} && s'.alive == s.alive && s'.gone == s.gone
    && AllIdle(s') && s'.holder == map[] && s'.lagging == {} && Keyed(s')
  }

  lemma MoveCommits(s: Sys, t: nat, a: nat, row: Row, prior: nat)
    requires ReadyToMove(s, t, a, row, prior)
    ensures var s1 := Applied(s, t);
            && Enabled(s1, Commit(t)) && CommitTxn(s1, t).rows == s.rows[a := row]
            && CommitTxn(s1, t).holder == map[]
            && CommitTxn(s1, t).txns == s.txns - {t}
            && CommitTxn(s1, t).tasks == s.tasks[Tag(t, prior) := Queued][Tag(t, row.credential) := Queued]
  {
    var s1 := Applied(s, t);
    assert Merge(s.rows, s1.txns[t]) == s.rows[a := row];
    assert s1.txns - {t} == s.txns - {t};
    assert s1.txns[t].touched == {prior, row.credential};
  }

  lemma BothPublish(s: Sys, first: Tag, second: Tag)
    requires first in s.tasks && s.tasks[first].Queued? && second in s.tasks && s.tasks[second].Queued?
    requires first != second
    requires first.credential in s.alive && second.credential in s.alive && s.holder == map[]
    ensures Legal(s, Publish(first) + Publish(second))
    ensures After(s, Publish(first) + Publish(second)) == Published(Published(s, first), second)
  {
    PublishRun(s, first);
    PublishRun(Published(s, first), second);
    AfterConcat(s, Publish(first), Publish(second));
  }

  lemma MoveRuns(s: Sys, t: nat, a: nat, row: Row, prior: nat)
    requires ReadyToMove(s, t, a, row, prior)
    ensures var rest := Publish(Tag(t, prior)) + Publish(Tag(t, row.credential));
            && Enabled(Applied(s, t), Commit(t)) && Legal(CommitTxn(Applied(s, t), t), rest)
            && Moved(s, After(CommitTxn(Applied(s, t), t), rest), t, a, row)
  {
    MoveCommits(s, t, a, row, prior);
    var s2 := CommitTxn(Applied(s, t), t);
    var first, second := Tag(t, prior), Tag(t, row.credential);
    BothPublish(s2, first, second);
    PublishedMoved(s, s2, t, a, row, first, second);
  }

  lemma PublishedMoved(s: Sys, s2: Sys, t: nat, a: nat, row: Row, first: Tag, second: Tag)
    requires AllIdle(s) && Keyed(s) && s.lagging == {} && row.credential in s.alive
    requires first.credential in s.alive && second.credential in s.alive
    requires s2.rows == s.rows[a := row] && s2.txns == s.txns - {t} && s2.alive == s.alive && s2.gone == s.gone
    requires s2.tasks == s.tasks[first := Queued][second := Queued]
    requires s2.holder == map[] && s2.lagging == {} && s2.published == s.published
    ensures Moved(s, Published(Published(s2, first), second), t, a, row)
  {
    var s4 := Published(Published(s2, first), second);
    assert forall tag :: tag in s4.tasks ==> tag == first || tag == second || tag in s.tasks;
  }

  /** Both writers read the same previous owner before either takes the row lock. */
  lemma BothCapture(s: Sys, a: nat, t: nat, rowT: Row, u: nat, rowU: Row)
    requires Quiet(s) && a in s.rows && t != u && t !in s.started && u !in s.started
    ensures var run := [Begin(t), Begin(u), CaptureSave(t, a, rowT), CaptureSave(u, a, rowU)];
            var prior := s.rows[a].credential;
            && Legal(s, run)
            && After(s, run) == s.(
                 started := s.started + {t} + {u},
                 txns := map[t := Txn(map[], {}, {}, Some(Pending(a, Some(rowT), {prior, rowT.credential}))),
                             u := Txn(map[], {}, {}, Some(Pending(a, Some(rowU), {prior, rowU.credential})))])
  {
    var none := Txn(map[], {}, {}, None);
    var prior := s.rows[a].credential;
    var s1 := s.(started := s.started + {t}, txns := map[t := none]);
    var s2 := s1.(started := s.started + {t} + {u}, txns := map[t := none, u := none]);
    var xt := Txn(map[], {}, {}, Some(Pending(a, Some(rowT), {prior, rowT.credential})));
    var xu := Txn(map[], {}, {}, Some(Pending(a, Some(rowU), {prior, rowU.credential})));
    var s3 := s2.(txns := map[t := xt, u := none]);
    var s4 := s2.(txns := map[t := xt, u := xu]);
    assert Do(s, Begin(t)) == s1 && Do(s1, Begin(u)) == s2;
    assert Owner(Some(s.rows[a])) + {rowT.credential} == {prior, rowT.credential};
    assert Owner(Some(s.rows[a])) + {rowU.credential} == {prior, rowU.credential};
    assert Do(s2, CaptureSave(t, a, rowT)) == s3;
    assert Do(s3, CaptureSave(u, a, rowU)) == s4;
    LegalCons(s3, CaptureSave(u, a, rowU), []);
    LegalCons(s2, CaptureSave(t, a, rowT), [CaptureSave(u, a, rowU)]);
    LegalCons(s1, Begin(u), [CaptureSave(t, a, rowT), CaptureSave(u, a, rowU)]);
    LegalCons(s, Begin(t), [Begin(u), CaptureSave(t, a, rowT), CaptureSave(u, a, rowU)]);
  }

  /** The same steps as one run from before the row lock. */
  lemma MoveIsReassign(s: Sys, t: nat, a: nat, row: Row, prior: nat)
    requires ReadyToMove(s, t, a, row, prior)
    ensures var rest := Publish(Tag(t, prior)) + Publish(Tag(t, row.credential));
            var s2 := CommitTxn(Applied(s, t), t);
            && Enabled(Applied(s, t), Commit(t)) && Legal(s2, rest)
            && Legal(s, Reassign(t, prior, row.credential))
            && After(s, Reassign(t, prior, row.credential)) == After(s2, rest)
  {
    MoveRuns(s, t, a, row, prior);
    var rest := Publish(Tag(t, prior)) + Publish(Tag(t, row.credential));
    var s1 := Applied(s, t);
    LegalCons(s1, Commit(t), rest);
    LegalCons(s, ApplyEdit(t), [Commit(t)] + rest);
    assert [ApplyEdit(t)] + ([Commit(t)] + rest) == Reassign(t, prior, row.credential);
  }

  /** One reassignment with all its publishers converges exactly when its capture is current. */
  lemma MoveOutcome(s: Sys, t: nat, a: nat, row: Row, prior: nat)
    requires ReadyToMove(s, t, a, row, prior) && Base(s) && Converged(s)
    ensures Legal(s, Reassign(t, prior, row.credential))
    ensures Moved(s, After(s, Reassign(t, prior, row.credential)), t, a, row)
    ensures Converged(After(s, Reassign(t, prior, row.credential))) <==> FreshEdit(s, t)
  {
    MoveRuns(s, t, a, row, prior);
    MoveIsReassign(s, t, a, row, prior);
    StepsAreSteps(Tag(t, prior), 3);
    StepsAreSteps(Tag(t, row.credential), 3);
    EditConvergesIff(s, t, Publish(Tag(t, prior)) + Publish(Tag(t, row.credential)));
  }

  ghost predicate TwoMovers(s: Sys, a: nat, t: nat, rowT: Row, u: nat, rowU: Row) {
    && t != u && a in s.rows && Base(s) && Converged(s)
    && ReadyToMove(s, t, a, rowT, s.rows[a].credential) && ReadyToMove(s, u, a, rowU, s.rows[a].credential)
    && s.txns.Keys == {t, u} && rowT.credential != rowU.credential
  }

  lemma SecondIsStale(s: Sys, a: nat, t: nat, rowT: Row, u: nat, rowU: Row, s': Sys)
    requires TwoMovers(s, a, t, rowT, u, rowU) && Moved(s, s', t, a, rowT)
    ensures ReadyToMove(s', u, a, rowU, s.rows[a].credential) && !FreshEdit(s', u)
  {
    assert s'.txns == map[u := s.txns[u]];
  }

  lemma BothMove(s: Sys, a: nat, t: nat, rowT: Row, u: nat, rowU: Row)
    requires TwoMovers(s, a, t, rowT, u, rowU)
    ensures var prior := s.rows[a].credential;
            var run := Reassign(t, prior, rowT.credential) + Reassign(u, prior, rowU.credential);
            Legal(s, run) && AllIdle(After(s, run)) && After(s, run).txns.Keys == {}
            && After(s, run).lagging == {} && !Converged(After(s, run))
  {
    var prior := s.rows[a].credential;
    MoveOutcome(s, t, a, rowT, prior);
    var s' := After(s, Reassign(t, prior, rowT.credential));
    BaseRun(s, Reassign(t, prior, rowT.credential));
    assert FreshEdit(s, t);
    SecondIsStale(s, a, t, rowT, u, rowU, s');
    MoveOutcome(s', u, a, rowU, prior);
    AfterConcat(s, Reassign(t, prior, rowT.credential), Reassign(u, prior, rowU.credential));
  }

  /**
   * From any settled state, two writers that move the same assignment to two
   * other owners and both captured its first one have a run without a single
   * failure that ends with every publisher done and some survivor still listing
   * what it no longer has.
   */
  lemma StaleReassignmentDiverges(s: Sys, a: nat, t: nat, rowT: Row, u: nat, rowU: Row) returns (run: seq<Action>)
    requires Quiet(s) && Base(s) && Keyed(s) && Converged(s) && a in s.rows && t != u && t !in s.started
    requires u !in s.started
    requires rowT.credential in s.alive && rowU.credential in s.alive
    requires s.rows[a].credential !in {rowT.credential, rowU.credential} && rowT.credential != rowU.credential
    ensures Legal(s, run) && (forall act :: act in run ==> !act.Fail?)
    ensures var s' := After(s, run); AllIdle(s') && s'.txns.Keys == {} && s'.lagging == {} && !Converged(s')
  {
    var prior := s.rows[a].credential;
    var both := [Begin(t), Begin(u), CaptureSave(t, a, rowT), CaptureSave(u, a, rowU)];
    BothCapture(s, a, t, rowT, u, rowU);
    var s1 := After(s, both);
    CapturedMovers(s, s1, a, t, rowT, u, rowU);
    run := MoversDiverge(s, both, a, t, rowT, u, rowU);
  }

  lemma MoversDiverge(s: Sys, start: seq<Action>, a: nat, t: nat, rowT: Row, u: nat, rowU: Row)
    returns (run: seq<Action>)
    requires Legal(s, start) && TwoMovers(After(s, start), a, t, rowT, u, rowU)
    requires forall act :: act in start ==> !act.Fail?
    ensures Legal(s, run) && (forall act :: act in run ==> !act.Fail?)
    ensures var s' := After(s, run); AllIdle(s') && s'.txns.Keys == {} && s'.lagging == {} && !Converged(s')
  {
    var prior := After(s, start).rows[a].credential;
    BothMove(After(s, start), a, t, rowT, u, rowU);
    var moves := Reassign(t, prior, rowT.credential) + Reassign(u, prior, rowU.credential);
    run := start + moves;
    AfterConcat(s, start, moves);
    ReassignNeverFails(t, prior, rowT.credential);
    ReassignNeverFails(u, prior, rowU.credential);
  }

  lemma ReassignNeverFails(t: nat, prior: nat, next: nat)
    ensures forall act :: act in Reassign(t, prior, next) ==> !act.Fail?
  {
    StepsAreSteps(Tag(t, prior), 3);
    StepsAreSteps(Tag(t, next), 3);
  }

  /** A writer that has captured the current owner is ready to move the assignment. */
  lemma CapturedMover(s: Sys, a: nat, t: nat, row: Row)
    requires AllIdle(s) && s.holder == map[] && s.lagging == {} && Keyed(s) && a in s.rows && t in s.txns
    requires var from := s.rows[a].credential;
             s.txns[t] == Txn(map[], {}, {}, Some(Pending(a, Some(row), {from, row.credential})))
             && from in s.alive && row.credential in s.alive && from != row.credential
    requires forall u :: u in s.txns ==> s.txns[u].overlay == map[]
    ensures ReadyToMove(s, t, a, row, s.rows[a].credential)
  {
  }

  lemma CapturedMovers(s: Sys, s1: Sys, a: nat, t: nat, rowT: Row, u: nat, rowU: Row)
    requires Quiet(s) && Keyed(s) && Converged(s) && a in s.rows && t != u && {t, u} <= s1.started
    requires rowT.credential in s.alive && rowU.credential in s.alive
    requires s.rows[a].credential !in {rowT.credential, rowU.credential} && rowT.credential != rowU.credential
    requires var from := s.rows[a].credential;
             s1.txns == map[
               t := Txn(map[], {}, {}, Some(Pending(a, Some(rowT), {from, rowT.credential}))),
               u := Txn(map[], {}, {}, Some(Pending(a, Some(rowU), {from, rowU.credential})))]
    requires s1 == s.(started := s1.started, txns := s1.txns)
    ensures TwoMovers(s1, a, t, rowT, u, rowU)
  {
    ConvergedFrame(s, s1);
    CapturedMover(s1, a, t, rowT);
    CapturedMover(s1, a, u, rowU);
  }

  lemma {:induction false} BaseRun(s: Sys, run: seq<Action>)
    requires Base(s) && Legal(s, run)
    ensures Base(After(s, run))
    decreases |run|
  {
    if run != [] {
      BaseDo(s, run[0]);
      BaseRun(Do(s, run[0]), run[1..]);
    }
  }

  // ------------------------------------------------------------------
  // Registering the publishers
  // ------------------------------------------------------------------

  /** The credentials named, without missing and zero ids. */
  function Wanted(ids: seq<Option<nat>>): set<nat> {
    set i | 0 <= i < |ids| && ids[i].Some? && ids[i].value != 0 :: ids[i].value
  }

  function Ascending(cs: set<nat>): seq<nat> {
    if cs == {} then [] else [Least(cs)] + Ascending(cs - {Least(cs)})
  }

  /** Ascending order lists every member once. */
  lemma {:induction false} AscendingLists(cs: set<nat>)
    ensures forall c :: c in Ascending(cs) <==> c in cs
    ensures forall i, j :: 0 <= i < j < |Ascending(cs)| ==> Ascending(cs)[i] < Ascending(cs)[j]
    decreases |cs|
  {
    if cs != {} {
      var c := Least(cs);
      AscendingLists(cs - {c});
      var rest := Ascending(cs - {c});
      assert forall i :: 0 <= i < |rest| ==> rest[i] in cs - {c};
      assert Ascending(cs) == [c] + rest;
    }
  }

  /** A connection's on-commit callbacks, each the projection of one credential. */
  class Connection {
    var callbacks: seq<nat>

    constructor ()
      ensures callbacks == []
    {
      callbacks := [];
    }

    /** Every named credential gets exactly one callback, in ascending order, after those already registered. */
    method DeferCustomMetadata(ids: seq<Option<nat>>)
      modifies this
      ensures old(callbacks) <= callbacks
      ensures var added := callbacks[|old(callbacks)|..];
              && (forall c :: c in added <==> Some(c) in ids && c != 0)
              && (forall i, j :: 0 <= i < j < |added| ==> added[i] < added[j])
    {
      var wanted := Ascending(Wanted(ids));
      AscendingLists(Wanted(ids));
      for k := 0 to |wanted|
        invariant callbacks == old(callbacks) + wanted[..k]
      {
        callbacks := callbacks + [wanted[k]];
      }
      assert callbacks[|old(callbacks)|..] == wanted;
      forall c
        ensures c in wanted <==> Some(c) in ids && c != 0
      {
        if Some(c) in ids && c != 0 {
          var i :| 0 <= i < |ids| && ids[i] == Some(c);
          assert ids[i].value in Wanted(ids);
        }
      }
    }
  }
}
