/**
 * The thread-local settings memo: a snapshot that must agree with the committed
 * row although the thread's own transactions may still roll back. One thread's
 * view, with other threads committing in between.
 */
module SettingsMemo {
  import opened Prelude

  /** The settings row, or its absence (defaults apply). */
  type Setting = Option<nat>

  /** The thread's memo and its marker of a settings write in flight. */
  datatype Memo = Memo(config: Option<Setting>, marked: bool)

  /**
   * `row` is committed; `levels` are the open atomic blocks, outermost first,
   * each with what it wrote last. `past` collects every committed value, and
   * `others` says whether another thread committed since the snapshot was taken.
   */
  datatype Thread = Thread(row: Setting, levels: seq<Option<Setting>>, memo: Memo, past: set<Setting>, others: bool)

  datatype Action =
    | Begin
    | Commit
    | RollBack
    | Write(value: Setting)
    | Read
    | Clear
    | Other(value: Setting)

  /** What the connection sees: the innermost uncommitted write, or the committed row. */
  function View(row: Setting, levels: seq<Option<Setting>>): Setting {
    if levels == [] then row
    else if levels[|levels| - 1].Some? then levels[|levels| - 1].value
    else View(row, levels[..|levels| - 1])
  }

  predicate Dirty(levels: seq<Option<Setting>>) {
    exists i :: 0 <= i < |levels| && levels[i].Some?
  }

  // ------------------------------------------------------------------
  // The memo's own operations
  // ------------------------------------------------------------------

  /** The marker holds only while an atomic block is open; otherwise it is dropped. */
  function Settle(m: Memo, inBlock: bool): Memo {
    if m.marked && !inBlock then m.(marked := false) else m
  }

  /** The value served and the memo left by one read. */
  function Serve(m: Memo, inBlock: bool, view: Setting): (Setting, Memo) {
    var n := Settle(m, inBlock);
    if n.marked then (view, n)
    else if n.config.Some? then (n.config.value, n)
    else (view, n.(config := Some(view)))
  }

  /** clear_config, with and without a write pending. */
  function Cleared(pending: bool, inBlock: bool): Memo {
    Memo(None, pending && inBlock)
  }

  /** The two thread-local attributes, as they are set and deleted. */
  class ThreadLocals {
    var config: Option<Setting>
    var marked: bool

    ghost function State(): Memo
      reads this
    {
      Memo(config, marked)
    }

    constructor ()
      ensures State() == Memo(None, false)
    {
      config, marked := None, false;
    }

    method WriteIsUncommitted(inBlock: bool) returns (open: bool)
      modifies this
      ensures State() == Settle(old(State()), inBlock) && open == State().marked
    {
      if !marked {
        return false;
      }
      open := inBlock;
      if !open {
        marked := false;
      }
    }

    /** A read serves and leaves exactly what the specification says. */
    method CurrentConfig(inBlock: bool, view: Setting) returns (value: Setting)
      modifies this
      ensures (value, State()) == Serve(old(State()), inBlock, view)
    {
      var bypass := WriteIsUncommitted(inBlock);
      if bypass {
        return view;
      }
      if config.None? {
        config := Some(view);
      }
      value := config.value;
    }

    method ClearConfig(pending: bool, inBlock: bool)
      modifies this
      ensures State() == Cleared(pending, inBlock)
    {
      config, marked := None, false;
      if !pending {
        return;
      }
      if inBlock {
        marked := true;
      }
    }
  }

  // ------------------------------------------------------------------
  // Runs of one thread
  // ------------------------------------------------------------------

  predicate Enabled(s: Thread, a: Action) {
    match a
    case Commit => s.levels != []
    case RollBack => s.levels != []
    case Other(_) => !Dirty(s.levels)
    case _ => true
  }

  function Do(s: Thread, a: Action): Thread
    requires Enabled(s, a)
  {
    match a
    case Begin => s.(levels := s.levels + [None])
    case Commit =>
      var n := |s.levels| - 1;
      var top := s.levels[n];
      if top.None? then s.(levels := s.levels[..n])
      else if n == 0 then s.(levels := [], row := top.value, past := s.past + {top.value})
      else s.(levels := s.levels[..n][n - 1 := top])
    case RollBack => s.(levels := s.levels[..|s.levels| - 1])
    case Write(v) =>
      var n := |s.levels|;
      if n == 0 then s.(row := v, past := s.past + {v}, memo := Cleared(true, false), others := false)
      else s.(levels := s.levels[n - 1 := Some(v)], memo := Cleared(true, true), others := false)
    case Read =>
      var served := Serve(s.memo, s.levels != [], View(s.row, s.levels));
      s.(memo := served.1, others := s.others && s.memo.config.Some?)
    case Clear => s.(memo := Cleared(false, s.levels != []), others := false)
    case Other(v) => s.(row := v, past := s.past + {v}, others := true)
  }

  /** What a read returns. */
  function Seen(s: Thread): Setting {
    Serve(s.memo, s.levels != [], View(s.row, s.levels)).0
  }

  predicate Legal(s: Thread, run: seq<Action>)
    decreases |run|
  {
    run == [] || (Enabled(s, run[0]) && Legal(Do(s, run[0]), run[1..]))
  }

  function After(s: Thread, run: seq<Action>): Thread
    requires Legal(s, run)
    decreases |run|
  {
    if run == [] then s else After(Do(s, run[0]), run[1..])
  }

  /** Every plain clear happens with no uncommitted settings write. */
  predicate CleanClears(s: Thread, run: seq<Action>)
    requires Legal(s, run)
    decreases |run|
  {
    run == [] || ((run[0] == Clear ==> !Dirty(s.levels)) && CleanClears(Do(s, run[0]), run[1..]))
  }

  // ------------------------------------------------------------------
  // Coherence
  // ------------------------------------------------------------------

  /**
   * While a write is uncommitted reads bypass the memo; a snapshot is a
   * committed value, current unless others committed.
   */
  predicate Coherent(s: Thread) {
    && s.row in s.past
    && (Dirty(s.levels) ==> s.memo.marked && s.memo.config.None?)
    && (s.memo.config.Some? ==> s.memo.config.value in s.past)
    && (s.memo.config.Some? && s.memo.config.value != s.row ==> s.others)
  }

  lemma {:induction false} CleanView(row: Setting, levels: seq<Option<Setting>>)
    requires !Dirty(levels)
    ensures View(row, levels) == row
  {
    if levels != [] {
      var front := levels[..|levels| - 1];
      assert levels[|levels| - 1].None?;
      assert forall i :: 0 <= i < |front| ==> front[i] == levels[i];
      CleanView(row, front);
    }
  }

  lemma CommitKeeps(s: Thread)
    requires Coherent(s) && s.levels != []
    ensures Coherent(Do(s, Commit))
  {
    var s' := Do(s, Commit);
    var n := |s.levels| - 1;
    if s.levels[n].Some? {
      assert Dirty(s.levels);
    } else if Dirty(s'.levels) {
      var i :| 0 <= i < |s'.levels| && s'.levels[i].Some?;
      assert s.levels[i].Some?;
    }
  }

  lemma CoherentDo(s: Thread, a: Action)
    requires Coherent(s) && Enabled(s, a) && (a == Clear ==> !Dirty(s.levels))
    ensures Coherent(Do(s, a))
  {
    var s' := Do(s, a);
    match a {
      case Commit => CommitKeeps(s);
      case Begin =>
        if Dirty(s'.levels) {
          var i :| 0 <= i < |s'.levels| && s'.levels[i].Some?;
          assert s.levels[i].Some?;
        }
      case RollBack =>
        if Dirty(s'.levels) {
          var i :| 0 <= i < |s'.levels| && s'.levels[i].Some?;
          assert s.levels[i].Some?;
        }
      case Read =>
        if !Dirty(s.levels) {
          CleanView(s.row, s.levels);
        }
      case _ =>
    }
  }

  /** A fresh thread outside any transaction. */
  predicate Fresh(s: Thread) {
    s.levels == [] && s.memo == Memo(None, false) && s.past == {s.row} && !s.others
  }

  lemma {:induction false} CoherentRun(s: Thread, run: seq<Action>)
    requires Coherent(s) && Legal(s, run) && CleanClears(s, run)
    ensures Coherent(After(s, run))
    decreases |run|
  {
    if run != [] {
      CoherentDo(s, run[0]);
      CoherentRun(Do(s, run[0]), run[1..]);
    }
  }

  /**
   * In every run whose plain clears meet no uncommitted settings write: the memo
   * holds only committed values; a thread with an uncommitted write reads what
   * its own transaction sees; and otherwise it reads the committed row, unless
   * another thread committed after the snapshot.
   */
  lemma MemoIsCoherent(s: Thread, run: seq<Action>)
    requires Fresh(s) && Legal(s, run) && CleanClears(s, run)
    ensures var s' := After(s, run);
            && (s'.memo.config.Some? ==> s'.memo.config.value in s'.past)
            && (Dirty(s'.levels) ==> Seen(s') == View(s'.row, s'.levels))
            && (!Dirty(s'.levels) && !s'.others ==> Seen(s') == s'.row)
  {
    CoherentRun(s, run);
    var s' := After(s, run);
    if !Dirty(s'.levels) {
      CleanView(s'.row, s'.levels);
    }
  }

  // ------------------------------------------------------------------
  // What is seen and what is remembered
  // ------------------------------------------------------------------

  /** The innermost block that wrote decides what is seen; without one, the committed row. */
  lemma {:induction false} ViewIs(row: Setting, levels: seq<Option<Setting>>, i: nat)
    requires i < |levels| ==> levels[i].Some?
    requires i <= |levels| && forall j :: i < j < |levels| ==> levels[j].None?
    ensures i < |levels| ==> View(row, levels) == levels[i].value
    ensures (forall j :: 0 <= j < |levels| ==> levels[j].None?) ==> View(row, levels) == row
    decreases |levels|
  {
    if levels != [] {
      var n := |levels| - 1;
      var front := levels[..n];
      assert forall j :: 0 <= j < n ==> front[j] == levels[j];
      if i < n {
        ViewIs(row, front, i);
      } else if levels[n].None? {
        CleanFront(row, levels);
      }
    }
  }

  lemma CleanFront(row: Setting, levels: seq<Option<Setting>>)
    ensures (forall j :: 0 <= j < |levels| ==> levels[j].None?) ==> View(row, levels) == row
  {
    if forall j :: 0 <= j < |levels| ==> levels[j].None? {
      assert !Dirty(levels);
      CleanView(row, levels);
    }
  }

  /** Ending a block keeps what was seen; undoing it brings back what was seen before it. */
  lemma BlocksNest(s: Thread, v: Setting)
    ensures var kept, undone := After3(s, Begin, Write(v), Commit), After3(s, Begin, Write(v), RollBack);
            && View(kept.row, kept.levels) == v && |kept.levels| == |s.levels|
            && (s.levels == [] ==> kept.row == v && v in kept.past)
            && undone.levels == s.levels && undone.row == s.row && undone.past == s.past
    ensures var kept := Do(Do(s, Begin), Commit); kept.levels == s.levels && kept.row == s.row
  {
    assert (s.levels + [None])[..|s.levels|] == s.levels;
    var written := Do(Do(s, Begin), Write(v));
    assert written.levels[..|s.levels|] == s.levels;
  }

  function After3(s: Thread, a: Action, b: Action, c: Action): Thread
    requires Enabled(s, a) && Enabled(Do(s, a), b) && Enabled(Do(Do(s, a), b), c)
  {
    Do(Do(Do(s, a), b), c)
  }

  /**
   * Outside any transaction a read serves the snapshot if there is one, else what
   * it sees, and leaves that as the snapshot: the next read is not disturbed by
   * another thread. After a write of its own the thread starts afresh.
   */
  lemma MemoResumes(s: Thread, v: Setting, w: Setting)
    requires s.levels == []
    ensures Seen(s) == if s.memo.config.Some? then s.memo.config.value else s.row
    ensures var s' := Do(s, Read);
            && s'.memo == Memo(Some(Seen(s)), false) && Seen(s') == Seen(s) && Seen(Do(s', Other(v))) == Seen(s)
    ensures Seen(Do(s, Write(v))) == v && After3(s, Write(v), Begin, Read).memo == Memo(Some(v), false)
  {
    assert View(v, [None]) == View(v, [None][..0]) == v;
  }

  /** The row a thread has written is locked against the others until its transaction ends. */
  lemma WriteKeepsOthersOut(s: Thread, v: Setting, w: Setting)
    ensures s.levels != [] ==> !Enabled(Do(s, Write(v)), Other(w))
    ensures s.levels == [] ==> Enabled(Do(s, Write(v)), Other(w))
  {
    var s' := Do(s, Write(v));
    assert s.levels != [] ==> s'.levels[|s'.levels| - 1].Some?;
  }

  /** Inside one, after a write, every read sees through to the transaction and leaves no snapshot. */
  lemma WriteBypasses(s: Thread, v: Setting, w: Setting)
    requires s.levels != []
    ensures var s' := Do(s, Write(v));
            && Seen(s') == v && Do(s', Read).memo == Memo(None, true) && Seen(Do(Do(s', Read), Write(w))) == w
  {
  }

  // ------------------------------------------------------------------
  // A plain clear inside a dirty transaction
  // ------------------------------------------------------------------

  function Unwind(n: nat): seq<Action> {
    if n == 0 then [] else [RollBack] + Unwind(n - 1)
  }

  lemma {:induction false} UnwindKeepsMemo(s: Thread)
    ensures Legal(s, Unwind(|s.levels|))
    ensures After(s, Unwind(|s.levels|)) == s.(levels := [])
    decreases |s.levels|
  {
    if s.levels != [] {
      UnwindKeepsMemo(Do(s, RollBack));
      assert Unwind(|s.levels|)[1..] == Unwind(|s.levels| - 1);
    }
  }

  /** Clear, read, then roll everything back. */
  function Abandon(s: Thread): seq<Action> {
    [Clear, Read] + Unwind(|s.levels|)
  }

  lemma AbandonEnds(s: Thread)
    ensures Legal(s, Abandon(s))
    ensures After(s, Abandon(s)).memo.config == Some(View(s.row, s.levels))
    ensures After(s, Abandon(s)).past == s.past && After(s, Abandon(s)).levels == []
    ensures After(s, Abandon(s)).row == s.row
  {
    var s1 := Do(s, Clear);
    var s2 := Do(s1, Read);
    UnwindKeepsMemo(s2);
    var run := Abandon(s);
    assert run[0] == Clear && run[1..][0] == Read && run[1..][1..] == Unwind(|s.levels|);
    assert Legal(s1, run[1..]);
  }

  /**
   * A plain clear, a read and a full rollback leave a coherent memo if and only
   * if the transaction's view was the committed row when the clear came; in any
   * case the next read serves that view.
   */
  lemma ClearBreaksIff(s: Thread)
    requires Coherent(s)
    ensures Legal(s, Abandon(s))
    ensures Coherent(After(s, Abandon(s))) <==> View(s.row, s.levels) == s.row
    ensures Seen(After(s, Abandon(s))) == View(s.row, s.levels)
  {
    AbandonEnds(s);
    OthersAfter(s);
  }

  lemma OthersAfter(s: Thread)
    ensures Legal(s, Abandon(s)) && !After(s, Abandon(s)).others
  {
    AbandonEnds(s);
    var s2 := Do(Do(s, Clear), Read);
    UnwindKeepsMemo(s2);
    var run := Abandon(s);
    assert run[0] == Clear && run[1..][0] == Read && run[1..][1..] == Unwind(|s.levels|);
    assert After(s, run) == After(s2, Unwind(|s.levels|));
  }

  /** From every fresh thread one write, one plain clear, one read and one rollback leave a value nobody committed. */
  lemma ClearInsideBreaks(s: Thread, v: nat)
    requires Fresh(s) && s.row != Some(v)
    ensures var run := [Begin, Write(Some(v)), Clear, Read, RollBack];
            && Legal(s, run) && After(s, run).levels == [] && After(s, run).row == s.row
            && Seen(After(s, run)) == Some(v) && Some(v) !in After(s, run).past
  {
    var s1 := Do(s, Begin);
    var s2 := Do(s1, Write(Some(v)));
    assert s2.levels == [Some(Some(v))];
    AbandonEnds(s2);
    assert Unwind(1) == [RollBack] + Unwind(0) == [RollBack];
    var run := [Begin, Write(Some(v)), Clear, Read, RollBack];
    assert run[1..][1..] == [Clear, Read, RollBack] == Abandon(s2);
    assert run[1..][0] == Write(Some(v));
    assert Legal(s1, run[1..]) && After(s1, run[1..]) == After(s2, Abandon(s2));
  }
}
