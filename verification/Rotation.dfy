/**
 * Every interleaving over one credential of material owners, their deletes
 * after the row lock is gone, the unlocked verify job, and reveals.
 *
 * The row lock lets one owner be open at a time. Compensating and discard
 * deletes run later, in any order against anything else, and may fail or never
 * happen.
 */
module Rotation {
  import opened Prelude
  import opened Material

  datatype Sys = Sys(
    world: World,
    row: Row,
    audits: set<nat>,
    active: Option<Owner>,
    undo: set<nat>,
    discard: set<nat>,
    jobs: multiset<nat>,
    loaded: multiset<Option<nat>>,
    served: set<nat>)

  /**
   * `undo` and `discard` are deletes still to be sent, `jobs` the values verify
   * jobs have read and not yet stored, `loaded` the live pointers reveals have
   * read, `served` every version that was ever the committed live version.
   */
  datatype Action =
    | Begin
    | Step(ev: Event)
    | Commit
    | RollBack
    | LoseCommit(applied: bool)
    | Die
    | SendDelete(version: nat, applied: bool)
    | JobRead
    | JobWrite(value: nat)
    | Load
    | Reveal(pointer: Option<nat>)

  function Pending(s: Sys): set<nat> {
    s.undo + s.discard
  }

  predicate Enabled(s: Sys, a: Action) {
    match a
    case Begin => s.active.None?
    case Step(_) => s.active.Some?
    case Commit => s.active.Some? && MayCommit(s.active.value)
    case RollBack => s.active.Some?
    case LoseCommit(applied) => s.active.Some? && (applied ==> MayCommit(s.active.value))
    case Die => s.active.Some?
    case SendDelete(v, _) => v in Pending(s)
    case JobRead => s.world.vault.counter > 0
    case JobWrite(v) => v in s.jobs && s.active.None?
    case Load => true
    case Reveal(l) => l in s.loaded
  }

  function Served(live: Option<nat>): set<nat> {
    if live.Some? then {live.value} else {}
  }

  /** The committed state takes over what the owner sees. */
  function Take(s: Sys, o: Owner): Sys {
    s.(row := o.now.row, audits := s.audits + o.now.audits, active := None, served := s.served + Served(o.now.row.live))
  }

  function VersionSet(attempts: seq<Attempt>): set<nat> {
    set v | v in Known(attempts)
  }

  function Do(s: Sys, a: Action): Sys
    requires Enabled(s, a)
  {
    match a
    case Begin => s.(active := Some(Opened("", s.row)))
    case Step(ev) =>
      var t := Apply(ev, s.active.value, s.world);
      s.(active := Some(t.owner), world := t.world)
    case Commit => Take(s, s.active.value).(discard := s.discard + VersionSet(s.active.value.deletions))
    case RollBack => s.(active := None, undo := s.undo + VersionSet(s.active.value.attempts))
    case LoseCommit(applied) => if applied then Take(s, s.active.value) else s.(active := None)
    case Die => s.(active := None)
    case SendDelete(v, applied) =>
      s.(undo := s.undo - {v}, discard := s.discard - {v},
         world := if applied then s.world.(vault := s.world.vault.Delete(v)) else s.world)
    case JobRead => s.(jobs := s.jobs + multiset{s.world.vault.counter})
    case JobWrite(v) => s.(jobs := s.jobs - multiset{v}, row := s.row.(kv := Some(v)))
    case Load => s.(loaded := s.loaded + multiset{s.row.live})
    case Reveal(l) => s.(loaded := s.loaded - multiset{l})
  }

  predicate Legal(s: Sys, run: seq<Action>)
    decreases |run|
  {
    run == [] || (Enabled(s, run[0]) && Legal(Do(s, run[0]), run[1..]))
  }

  function After(s: Sys, run: seq<Action>): Sys
    requires Legal(s, run)
    decreases |run|
  {
    if run == [] then s else After(Do(s, run[0]), run[1..])
  }

  // ------------------------------------------------------------------
  // The invariant
  // ------------------------------------------------------------------

  /** Served and staged versions exist, the staged one is newer, the recorded counter is not ahead. */
  ghost predicate RowOK(row: Row, vault: Vault, floor: nat) {
    && row.live.Some? && floor <= row.live.value && vault.Has(row.live.value)
    && (row.staged.Some? ==> row.live.value < row.staged.value && vault.Has(row.staged.value))
    && (row.kv.Some? ==> row.kv.value <= vault.counter)
  }

  ghost predicate Clear(row: Row, pending: set<nat>) {
    (row.live.Some? ==> row.live.value !in pending) && (row.staged.Some? ==> row.staged.value !in pending)
  }

  ghost predicate ViewOK(sn: Snapshot, deletions: seq<Attempt>, vault: Vault, floor: nat, pending: set<nat>) {
    && RowOK(sn.row, vault, floor)
    && Clear(sn.row, pending)
    && (forall i :: 0 <= i < |deletions| && Retained(deletions[i], sn.audits) ==> deletions[i].version != sn.row.live)
  }

  ghost predicate ListsOK(o: Owner, s: Sys) {
    && (forall i :: 0 <= i < |o.attempts| && o.attempts[i].version.Some? ==>
          var v := o.attempts[i].version.value;
          1 <= v <= s.world.vault.counter && v !in s.served && Some(v) != s.row.staged)
    && (forall i :: 0 <= i < |o.deletions| ==>
          && o.deletions[i].version.Some? && s.row.live.Some?
          && s.row.live.value < o.deletions[i].version.value <= s.world.vault.counter)
  }

  ghost predicate OwnerOK(o: Owner, s: Sys) {
    && s.row.live.Some?
    && Settled(o, s.world)
    && ListsOK(o, s)
    && ViewOK(o.now, o.deletions, s.world.vault, s.row.live.value, Pending(s))
    && (forall i :: 0 <= i < |o.savepoints| ==>
          ViewOK(o.savepoints[i], o.deletions, s.world.vault, s.row.live.value, Pending(s)))
  }

  ghost predicate Safe(s: Sys) {
    && RowOK(s.row, s.world.vault, 0)
    && Clear(s.row, Pending(s))
    && s.row.live.value in s.served
    && (forall v :: v in s.served ==> s.world.vault.Has(v) && v <= s.row.live.value && v !in Pending(s))
    && (forall v :: v in Pending(s) ==> 1 <= v <= s.world.vault.counter)
    && (forall v :: v in s.world.vault.deleted ==> v <= s.world.vault.counter)
    && (forall v :: v in s.jobs ==> 1 <= v <= s.world.vault.counter)
    && (forall l :: l in s.loaded ==> l.Some? && l.value in s.served)
    && (s.active.Some? ==> OwnerOK(s.active.value, s))
  }

  lemma OldViewOK(sn: Snapshot, ev: Event, o: Owner, s: Sys)
    requires Candid(o, s.world) && s.row.live.Some?
    requires forall a :: a in sn.audits ==> a < s.world.nextAudit
    requires ViewOK(sn, o.deletions, s.world.vault, s.row.live.value, Pending(s))
    ensures var t := Apply(ev, o, s.world);
            ViewOK(sn, t.owner.deletions, t.world.vault, s.row.live.value, Pending(s))
  {
    var t := Apply(ev, o, s.world);
    forall i | 0 <= i < |t.owner.deletions| && Retained(t.owner.deletions[i], sn.audits)
      ensures i < |o.deletions| && t.owner.deletions[i] == o.deletions[i]
    {
    }
  }

  lemma StoreViewOK(o: Owner, s: Sys, cas: Option<nat>, fingerprint: string, promote: bool, luck: Luck)
    requires Safe(s) && OwnerOK(o, s) && (!promote ==> o.now.row.staged.None?)
    ensures var t := Store(o, s.world, cas, fingerprint, promote, luck);
            ViewOK(t.owner.now, t.owner.deletions, t.world.vault, s.row.live.value, Pending(s))
  {
    var t := Store(o, s.world, cas, fingerprint, promote, luck);
    if t.raised {
      assert t.owner.now == o.now && t.owner.deletions == o.deletions;
    } else {
      var v := s.world.vault.counter + 1;
      assert t.owner.now.row == Stored(o.now.row, v, fingerprint, promote);
      assert v !in Pending(s) && t.world.vault.Has(v);
      forall i | 0 <= i < |o.deletions| && Retained(o.deletions[i], t.owner.now.audits)
        ensures o.deletions[i].version != t.owner.now.row.live
      {
        assert Retained(o.deletions[i], o.now.audits);
      }
    }
  }

  lemma NowViewOK(ev: Event, o: Owner, s: Sys)
    requires Safe(s) && OwnerOK(o, s)
    ensures var t := Apply(ev, o, s.world);
            ViewOK(t.owner.now, t.owner.deletions, t.world.vault, s.row.live.value, Pending(s))
  {
    match ev
    case Replace(cas, fingerprint, luck) => StoreViewOK(o, s, CasValue(cas, o.now.row), fingerprint, true, luck);
    case Stage(fingerprint, luck) =>
      assert Pinned(o.now.row) == o.now.row;
      if o.now.row.staged.None? {
        assert o.(now := o.now.(row := Pinned(o.now.row))) == o;
        StoreViewOK(o, s, o.now.row.kv, fingerprint, false, luck);
      }
    case Discard(audited) =>
      var t := Apply(ev, o, s.world);
      forall i | 0 <= i < |t.owner.deletions| && Retained(t.owner.deletions[i], t.owner.now.audits)
        ensures t.owner.deletions[i].version != t.owner.now.row.live
      {
        if i < |o.deletions| {
          assert Retained(o.deletions[i], o.now.audits);
        }
      }
    case _ =>
  }

  lemma StoreLists(o: Owner, s: Sys, cas: Option<nat>, fingerprint: string, promote: bool, luck: Luck)
    requires Safe(s) && ListsOK(o, s)
    ensures var t := Store(o, s.world, cas, fingerprint, promote, luck);
            ListsOK(t.owner, s.(world := t.world))
  {
    var t := Store(o, s.world, cas, fingerprint, promote, luck);
    assert t.owner.deletions == o.deletions;
    assert forall i :: 0 <= i < |o.attempts| ==> t.owner.attempts[i] == o.attempts[i];
    var last := Last(t.owner.attempts);
    assert |t.owner.attempts| == |o.attempts| + 1;
    assert last.version.Some? ==> last.version.value == s.world.vault.counter + 1 == t.world.vault.counter;
  }

  lemma ListsStep(ev: Event, o: Owner, s: Sys)
    requires Safe(s) && OwnerOK(o, s)
    ensures ListsOK(Apply(ev, o, s.world).owner, s.(world := Apply(ev, o, s.world).world))
  {
    match ev
    case Replace(cas, fingerprint, luck) => StoreLists(o, s, CasValue(cas, o.now.row), fingerprint, true, luck);
    case Stage(fingerprint, luck) =>
      StoreLists(o.(now := o.now.(row := Pinned(o.now.row))), s, Pinned(o.now.row).kv, fingerprint, false, luck);
    case _ =>
  }

  ghost predicate Grew(v: Vault, v': Vault) {
    v' == v || exists fingerprint :: v' == v.Issue(fingerprint)
  }

  lemma VaultGrows(ev: Event, o: Owner, w: World)
    ensures Grew(w.vault, Apply(ev, o, w).world.vault)
  {
    if ev.Replace? || ev.Stage? {
      assert Grew(w.vault, w.vault.Issue(ev.fingerprint));
    }
  }

  /** The parts of the invariant that do not speak of the open owner survive a new version. */
  lemma SafeGrew(s: Sys, w': World, active: Option<Owner>)
    requires Safe(s) && Grew(s.world.vault, w'.vault)
    ensures Safe(s.(world := w', active := None))
    ensures active.Some? && OwnerOK(active.value, s.(world := w', active := None)) ==>
              Safe(s.(world := w', active := active))
  {
    assert RowOK(s.row, w'.vault, 0);
  }

  lemma SafeStep(s: Sys, ev: Event)
    requires Safe(s) && s.active.Some?
    ensures Safe(Do(s, Step(ev)))
  {
    var o := s.active.value;
    var t := Apply(ev, o, s.world);
    var s' := s.(world := t.world, active := None);
    assert Settled(t.owner, t.world) by {
      SettledStep(ev, o, s.world);
    }
    assert ListsOK(t.owner, s') by {
      ListsStep(ev, o, s);
      assert ListsOK(t.owner, s.(world := t.world));
    }
    assert ViewOK(t.owner.now, t.owner.deletions, t.world.vault, s.row.live.value, Pending(s)) by {
      NowViewOK(ev, o, s);
    }
    SavepointsOK(ev, o, s);
    VaultGrows(ev, o, s.world);
    SafeGrew(s, t.world, Some(t.owner));
  }

  lemma SavepointsOK(ev: Event, o: Owner, s: Sys)
    requires Safe(s) && OwnerOK(o, s)
    ensures var t := Apply(ev, o, s.world);
            forall i :: 0 <= i < |t.owner.savepoints| ==>
              ViewOK(t.owner.savepoints[i], t.owner.deletions, t.world.vault, s.row.live.value, Pending(s))
  {
    var t := Apply(ev, o, s.world);
    OldViewOK(o.now, ev, o, s);
    forall i | 0 <= i < |o.savepoints|
      ensures ViewOK(o.savepoints[i], t.owner.deletions, t.world.vault, s.row.live.value, Pending(s))
    {
      OldViewOK(o.savepoints[i], ev, o, s);
    }
    forall i | 0 <= i < |t.owner.savepoints|
      ensures t.owner.savepoints[i] in o.savepoints + [o.now]
    {
      SavepointsCome(ev, o, s.world, i);
    }
  }

  lemma SavepointsCome(ev: Event, o: Owner, w: World, i: nat)
    requires i < |Apply(ev, o, w).owner.savepoints|
    ensures Apply(ev, o, w).owner.savepoints[i] == (o.savepoints + [o.now])[i]
  {
  }

  lemma VersionSetMember(attempts: seq<Attempt>)
    ensures forall v :: v in VersionSet(attempts) <==> exists i :: 0 <= i < |attempts| && attempts[i].version == Some(v)
  {
    forall v {
      KnownMember(attempts, v);
    }
  }

  lemma SafeTake(s: Sys)
    requires Safe(s) && s.active.Some? && MayCommit(s.active.value)
    ensures Safe(Take(s, s.active.value))
  {
  }

  /** What a committed discard is about to delete is newer than the old live version and not in use. */
  lemma DiscardedUnused(s: Sys, v: nat)
    requires Safe(s) && Enabled(s, Commit) && v in VersionSet(s.active.value.deletions)
    ensures var o := s.active.value;
            s.row.live.value < v <= s.world.vault.counter && Some(v) != o.now.row.live && Some(v) != o.now.row.staged
  {
    var o := s.active.value;
    VersionSetMember(o.deletions);
    var i :| 0 <= i < |o.deletions| && o.deletions[i].version == Some(v);
    assert (o.attempts + o.deletions)[|o.attempts| + i] == o.deletions[i];
  }

  lemma SafeCommit(s: Sys)
    requires Safe(s) && Enabled(s, Commit)
    ensures Safe(Do(s, Commit))
  {
    var gone := VersionSet(s.active.value.deletions);
    SafeTake(s);
    forall v | v in gone {
      DiscardedUnused(s, v);
    }
    assert Pending(Do(s, Commit)) == Pending(s) + gone;
  }

  lemma SafeRollBack(s: Sys)
    requires Safe(s) && Enabled(s, RollBack)
    ensures Safe(Do(s, RollBack))
  {
    var o := s.active.value;
    VersionSetMember(o.attempts);
    assert Pending(Do(s, RollBack)) == Pending(s) + VersionSet(o.attempts);
  }

  lemma ViewAfterDelete(sn: Snapshot, deletions: seq<Attempt>, vault: Vault, floor: nat, pending: set<nat>, v: nat)
    requires ViewOK(sn, deletions, vault, floor, pending) && v in pending
    ensures ViewOK(sn, deletions, vault.Delete(v), floor, pending - {v})
    ensures ViewOK(sn, deletions, vault, floor, pending - {v})
  {
  }

  lemma OwnerAfterDelete(o: Owner, s: Sys, v: nat, applied: bool)
    requires OwnerOK(o, s) && v in Pending(s)
    ensures OwnerOK(o, Do(s, SendDelete(v, applied)))
  {
    var s' := Do(s, SendDelete(v, applied));
    var floor := s.row.live.value;
    assert Pending(s') == Pending(s) - {v};
    ViewAfterDelete(o.now, o.deletions, s.world.vault, floor, Pending(s), v);
    forall i | 0 <= i < |o.savepoints|
      ensures ViewOK(o.savepoints[i], o.deletions, s'.world.vault, floor, Pending(s'))
    {
      ViewAfterDelete(o.savepoints[i], o.deletions, s.world.vault, floor, Pending(s), v);
    }
    assert Settled(o, s'.world);
    assert ListsOK(o, s');
  }

  lemma SafeSendDelete(s: Sys, v: nat, applied: bool)
    requires Safe(s) && v in Pending(s)
    ensures Safe(Do(s, SendDelete(v, applied)))
  {
    var s' := Do(s, SendDelete(v, applied));
    assert Pending(s') <= Pending(s);
    if s.active.Some? {
      OwnerAfterDelete(s.active.value, s, v, applied);
    }
  }

  lemma SafeBegin(s: Sys)
    requires Safe(s) && s.active.None?
    ensures Safe(Do(s, Begin))
  {
  }

  /** The open owner's part of the invariant does not look at jobs and reveals. */
  lemma OwnerFrame(o: Owner, s: Sys, s': Sys)
    requires OwnerOK(o, s)
    requires s'.world == s.world && s'.row == s.row && s'.served == s.served && Pending(s') == Pending(s)
    ensures OwnerOK(o, s')
  {
    assert ListsOK(o, s');
  }

  lemma SafeReader(s: Sys, a: Action)
    requires Safe(s) && Enabled(s, a) && (a.Load? || a.Reveal? || a.Die?)
    ensures Safe(Do(s, a))
  {
    var s' := Do(s, a);
    assert Pending(s') == Pending(s);
    if s'.active.Some? {
      OwnerFrame(s.active.value, s, s');
    }
  }

  lemma SafeJob(s: Sys, a: Action)
    requires Safe(s) && Enabled(s, a) && (a.JobRead? || a.JobWrite?)
    ensures Safe(Do(s, a))
  {
    var s' := Do(s, a);
    assert Pending(s') == Pending(s);
    if s'.active.Some? {
      OwnerFrame(s.active.value, s, s');
    }
  }

  /** Every step of every participant keeps the invariant. */
  lemma SafeDo(s: Sys, a: Action)
    requires Safe(s) && Enabled(s, a)
    ensures Safe(Do(s, a))
    ensures s.row.live.value <= Do(s, a).row.live.value
    ensures s.served <= Do(s, a).served
  {
    match a
    case Begin => SafeBegin(s);
    case Step(ev) => SafeStep(s, ev);
    case Commit => SafeCommit(s);
    case RollBack => SafeRollBack(s);
    case LoseCommit(applied) =>
      if applied {
        SafeTake(s);
      }
    case SendDelete(v, applied) => SafeSendDelete(s, v, applied);
    case JobRead => SafeJob(s, a);
    case JobWrite(_) => SafeJob(s, a);
    case _ => SafeReader(s, a);
  }

  lemma {:induction false} SafeRun(s: Sys, run: seq<Action>)
    requires Safe(s) && Legal(s, run)
    ensures Safe(After(s, run))
    ensures s.row.live.value <= After(s, run).row.live.value
    ensures s.served <= After(s, run).served
    decreases |run|
  {
    if run != [] {
      SafeDo(s, run[0]);
      SafeRun(Do(s, run[0]), run[1..]);
    }
  }

  // ------------------------------------------------------------------
  // Theorems
  // ------------------------------------------------------------------

  /** Nothing in flight, and every recorded version was issued and is still there. */
  ghost predicate Start(s: Sys) {
    && s.active.None? && s.undo == {} && s.discard == {} && s.jobs == multiset{} && s.loaded == multiset{}
    && s.served == Served(s.row.live)
    && (s.row.live.Some? ==> s.world.vault.Has(s.row.live.value))
    && (s.row.staged.Some? ==> s.world.vault.Has(s.row.staged.value))
    && (s.row.live.Some? && s.row.staged.Some? ==> s.row.live.value < s.row.staged.value)
    && (s.row.kv.Some? ==> s.row.kv.value <= s.world.vault.counter)
    && (forall v :: v in s.world.vault.deleted ==> v <= s.world.vault.counter)
  }

  /** The live pointer names a version that a reader would find. */
  predicate LiveFound(s: Sys) {
    s.row.live.Some? ==> s.world.vault.Has(s.row.live.value)
  }

  /**
   * With the live pointer set at the start, every run keeps it set and
   * present, never moves it back, and never deletes a version that was served,
   * so a reveal that loaded the pointer long ago still finds its version.
   */
  lemma LivePointerSafety(s: Sys, run: seq<Action>)
    requires Start(s) && s.row.live.Some? && Legal(s, run)
    ensures var s' := After(s, run);
            && s'.row.live.Some? && LiveFound(s') && s.row.live.value <= s'.row.live.value
            && (forall v :: v in s'.served ==> s'.world.vault.Has(v))
            && (forall l :: l in s'.loaded ==> l.Some? && l.value in s'.served)
  {
    SafeRun(s, run);
  }

  /**
   * A staged version is newer than the live one and not beyond the counter, is
   * still present, and was never served or loaded by a reveal.
   */
  lemma StagingIsolation(s: Sys, run: seq<Action>)
    requires Start(s) && s.row.live.Some? && Legal(s, run)
    requires After(s, run).row.staged.Some?
    ensures var s' := After(s, run);
            && s'.row.live.Some? && s'.row.live.value < s'.row.staged.value <= s'.world.vault.counter
            && s'.world.vault.Has(s'.row.staged.value)
            && s'.row.staged.value !in s'.served
            && s'.row.staged !in s'.loaded
  {
    SafeRun(s, run);
  }

  // ------------------------------------------------------------------
  // Key identities
  // ------------------------------------------------------------------

  ghost predicate KeyBound(key: KeyIdentity, version: Option<nat>, vault: Vault) {
    key.version.Some? ==>
      key.version == version && version.value in vault.prints && vault.prints[version.value] == key.fingerprint
  }

  ghost predicate KeysBound(row: Row, vault: Vault) {
    KeyBound(row.liveKey, row.live, vault) && KeyBound(row.stagedKey, row.staged, vault)
  }

  /** Every view of the row binds its recorded identities to its versions. */
  ghost predicate Identified(s: Sys) {
    && KeysBound(s.row, s.world.vault)
    && (s.active.Some? ==>
          && KeysBound(s.active.value.now.row, s.world.vault)
          && (forall i :: 0 <= i < |s.active.value.savepoints| ==>
                KeysBound(s.active.value.savepoints[i].row, s.world.vault)))
  }

  lemma BoundGrew(row: Row, v: Vault, v': Vault, floor: nat)
    requires KeysBound(row, v) && RowOK(row, v, floor) && Grew(v, v')
    ensures KeysBound(row, v')
  {
  }

  lemma StoreBound(o: Owner, w: World, cas: Option<nat>, fingerprint: string, promote: bool, luck: Luck, floor: nat)
    requires KeysBound(o.now.row, w.vault) && RowOK(o.now.row, w.vault, floor)
    ensures var t := Store(o, w, cas, fingerprint, promote, luck); KeysBound(t.owner.now.row, t.world.vault)
  {
  }

  lemma NowBound(ev: Event, o: Owner, s: Sys)
    requires Safe(s) && OwnerOK(o, s) && KeysBound(o.now.row, s.world.vault)
    requires forall i :: 0 <= i < |o.savepoints| ==> KeysBound(o.savepoints[i].row, s.world.vault)
    ensures KeysBound(Apply(ev, o, s.world).owner.now.row, Apply(ev, o, s.world).world.vault)
  {
    match ev
    case Replace(cas, fingerprint, luck) =>
      StoreBound(o, s.world, CasValue(cas, o.now.row), fingerprint, true, luck, s.row.live.value);
    case Stage(fingerprint, luck) =>
      assert Pinned(o.now.row) == o.now.row;
      StoreBound(o.(now := o.now.(row := Pinned(o.now.row))), s.world, o.now.row.kv,
                 fingerprint, false, luck, s.row.live.value);
    case _ =>
  }

  lemma IdentifiedStep(s: Sys, ev: Event)
    requires Safe(s) && Identified(s) && s.active.Some?
    ensures Identified(Do(s, Step(ev)))
  {
    var o := s.active.value;
    var t := Apply(ev, o, s.world);
    VaultGrows(ev, o, s.world);
    BoundGrew(s.row, s.world.vault, t.world.vault, 0);
    NowBound(ev, o, s);
    forall i | 0 <= i < |t.owner.savepoints|
      ensures KeysBound(t.owner.savepoints[i].row, t.world.vault)
    {
      SavepointsCome(ev, o, s.world, i);
      BoundGrew((o.savepoints + [o.now])[i].row, s.world.vault, t.world.vault, s.row.live.value);
    }
  }

  lemma {:induction false} IdentifiedRun(s: Sys, run: seq<Action>)
    requires Safe(s) && Identified(s) && Legal(s, run)
    ensures Identified(After(s, run))
    decreases |run|
  {
    if run != [] {
      SafeDo(s, run[0]);
      if run[0].Step? {
        IdentifiedStep(s, run[0].ev);
      }
      IdentifiedRun(Do(s, run[0]), run[1..]);
    }
  }

  /** From this version on, a key at the row's version is recorded with it. */
  ghost predicate KeyKept(key: KeyIdentity, version: Option<nat>, vault: Vault, since: nat) {
    version.Some? && version.value > since && version.value in vault.prints && vault.prints[version.value] != "" ==>
      key.fingerprint == vault.prints[version.value] && key.version == version
  }

  ghost predicate KeysKept(row: Row, vault: Vault, since: nat) {
    KeyKept(row.liveKey, row.live, vault, since) && KeyKept(row.stagedKey, row.staged, vault, since)
  }

  ghost predicate AllKept(s: Sys, since: nat) {
    && KeysKept(s.row, s.world.vault, since)
    && (s.active.Some? ==>
          && KeysKept(s.active.value.now.row, s.world.vault, since)
          && (forall i :: 0 <= i < |s.active.value.savepoints| ==>
                KeysKept(s.active.value.savepoints[i].row, s.world.vault, since)))
  }

  lemma KeptGrew(row: Row, v: Vault, v': Vault, floor: nat, since: nat)
    requires KeysKept(row, v, since) && RowOK(row, v, floor) && Grew(v, v')
    ensures KeysKept(row, v', since)
  {
  }

  lemma StoreKept(
    o: Owner, w: World, cas: Option<nat>, fingerprint: string, promote: bool, luck: Luck, floor: nat, since: nat)
    requires KeysKept(o.now.row, w.vault, since) && RowOK(o.now.row, w.vault, floor)
    ensures var t := Store(o, w, cas, fingerprint, promote, luck); KeysKept(t.owner.now.row, t.world.vault, since)
  {
  }

  lemma NowKept(ev: Event, o: Owner, s: Sys, since: nat)
    requires Safe(s) && OwnerOK(o, s) && KeysKept(o.now.row, s.world.vault, since)
    requires forall i :: 0 <= i < |o.savepoints| ==> KeysKept(o.savepoints[i].row, s.world.vault, since)
    ensures KeysKept(Apply(ev, o, s.world).owner.now.row, Apply(ev, o, s.world).world.vault, since)
  {
    match ev
    case Replace(cas, fingerprint, luck) =>
      StoreKept(o, s.world, CasValue(cas, o.now.row), fingerprint, true, luck, s.row.live.value, since);
    case Stage(fingerprint, luck) =>
      assert Pinned(o.now.row) == o.now.row;
      StoreKept(o.(now := o.now.(row := Pinned(o.now.row))), s.world, o.now.row.kv,
                fingerprint, false, luck, s.row.live.value, since);
    case _ =>
  }

  lemma KeptStep(s: Sys, ev: Event, since: nat)
    requires Safe(s) && AllKept(s, since) && s.active.Some?
    ensures AllKept(Do(s, Step(ev)), since)
  {
    var o := s.active.value;
    var t := Apply(ev, o, s.world);
    VaultGrows(ev, o, s.world);
    KeptGrew(s.row, s.world.vault, t.world.vault, 0, since);
    NowKept(ev, o, s, since);
    forall i | 0 <= i < |t.owner.savepoints|
      ensures KeysKept(t.owner.savepoints[i].row, t.world.vault, since)
    {
      SavepointsCome(ev, o, s.world, i);
      KeptGrew((o.savepoints + [o.now])[i].row, s.world.vault, t.world.vault, s.row.live.value, since);
    }
  }

  lemma {:induction false} KeptRun(s: Sys, run: seq<Action>, since: nat)
    requires Safe(s) && AllKept(s, since) && Legal(s, run)
    ensures AllKept(After(s, run), since)
    decreases |run|
  {
    if run != [] {
      SafeDo(s, run[0]);
      if run[0].Step? {
        KeptStep(s, run[0].ev, since);
      }
      KeptRun(Do(s, run[0]), run[1..], since);
    }
  }

  /**
   * live_key_fingerprint: a recorded identity describes the material at the live
   * version, and a key that came to be served in the run is recorded.
   */
  lemma LiveIdentityIsCurrent(s: Sys, run: seq<Action>)
    requires Start(s) && s.row.live.Some? && KeysBound(s.row, s.world.vault) && Legal(s, run)
    ensures var s' := After(s, run);
            s'.row.liveKey.version.Some? ==>
              && s'.row.liveKey.version == s'.row.live
              && s'.row.live.value in s'.world.vault.prints
              && s'.row.liveKey.fingerprint == s'.world.vault.prints[s'.row.live.value]
    ensures After(s, run).row.live.Some?
    ensures var s' := After(s, run);
            var live := s'.row.live.value;
            && live in s'.world.vault.prints && s'.world.vault.prints[live] != ""
            && (live > s.world.vault.counter || KeysKept(s.row, s.world.vault, 0)) ==>
              s'.row.liveKey.version == Some(live) && s'.row.liveKey.fingerprint == s'.world.vault.prints[live]
  {
    IdentifiedRun(s, run);
    SafeRun(s, run);
    KeptRun(s, run, s.world.vault.counter);
    if KeysKept(s.row, s.world.vault, 0) {
      KeptRun(s, run, 0);
    }
  }

  /** Promotion never finds its staged version missing: with the listing available it succeeds. */
  lemma PromotionFindsItsVersion(s: Sys, run: seq<Action>)
    requires Start(s) && s.row.live.Some? && Legal(s, run)
    requires After(s, run).active.Some? && After(s, run).active.value.now.row.staged.Some?
    ensures var s' := After(s, run);
            var t := Apply(Promote(true), s'.active.value, s'.world);
            !t.raised && t.owner.now.row.live == s'.active.value.now.row.staged
  {
    SafeRun(s, run);
  }

  // ------------------------------------------------------------------
  // An empty live pointer can be pinned to a version about to be deleted
  // ------------------------------------------------------------------

  lemma {:induction false} RunConcat(s: Sys, a: seq<Action>, b: seq<Action>)
    requires Legal(s, a) && Legal(After(s, a), b)
    ensures Legal(s, a + b) && After(s, a + b) == After(After(s, a), b)
    decreases |a|
  {
    if a == [] {
      assert a + b == b;
    } else {
      assert (a + b)[0] == a[0] && (a + b)[1..] == a[1..] + b;
      RunConcat(Do(s, a[0]), a[1..], b);
    }
  }

  lemma RunCons(s: Sys, a: Action, rest: seq<Action>)
    requires Enabled(s, a) && Legal(Do(s, a), rest)
    ensures Legal(s, [a] + rest) && After(s, [a] + rest) == After(Do(s, a), rest)
  {
    assert ([a] + rest)[0] == a && ([a] + rest)[1..] == rest;
  }

  const FINE := Luck(Acknowledged, true, true)

  ghost predicate Remembers(attempts: seq<Attempt>, v: nat) {
    exists i :: 0 <= i < |attempts| && attempts[i].version == Some(v)
  }

  /**
   * How an owner ends: a commit publishes its row and audit rows and leaves the
   * versions it discarded to be deleted; a rollback publishes nothing and leaves
   * those it wrote; a lost answer or a crash leaves nothing to delete.
   */
  lemma EndingsLeave(s: Sys, v: nat)
    requires s.active.Some?
    ensures var o := s.active.value;
            && (MayCommit(o) ==>
                  var c := Do(s, Commit);
                  && c.row == o.now.row && c.active.None? && (o.now.row.live == Some(v) ==> v in c.served)
                  && c.audits == s.audits + o.now.audits && c.undo == s.undo
                  && (v in c.discard <==> v in s.discard || Remembers(o.deletions, v)))
            && (var b := Do(s, RollBack);
                && b.row == s.row && b.audits == s.audits && b.active.None? && b.discard == s.discard
                && (v in b.undo <==> v in s.undo || Remembers(o.attempts, v)))
            && Do(s, Die) == s.(active := None) == Do(s, LoseCommit(false))
            && (MayCommit(o) ==>
                  Do(s, LoseCommit(true)).row == o.now.row && Pending(Do(s, LoseCommit(true))) == Pending(s))
  {
    VersionSetMember(s.active.value.attempts);
    VersionSetMember(s.active.value.deletions);
    KnownMember(s.active.value.attempts, v);
    KnownMember(s.active.value.deletions, v);
  }

  /** A reveal that has loaded its pointer leaves nothing behind. */
  lemma RevealLeaves(s: Sys)
    ensures Do(Do(s, Load), Reveal(s.row.live)) == s
  {
    TakenBack(s.loaded, s.row.live);
  }

  /** A verify job that nothing overtakes leaves the store's counter as the record. */
  lemma JobLeaves(s: Sys)
    requires s.world.vault.counter > 0 && s.active.None?
    ensures var c := s.world.vault.counter; Do(Do(s, JobRead), JobWrite(c)) == s.(row := s.row.(kv := Some(c)))
  {
    TakenBack(s.jobs, s.world.vault.counter);
  }

  lemma TakenBack<T>(m: multiset<T>, x: T)
    ensures m + multiset{x} - multiset{x} == m
  {
  }

  /** Between owners, nothing staged, and the record up to date. */
  ghost predicate Current(s: Sys) {
    s.active.None? && s.row.staged.None? && s.row.live.Some? && s.row.kv == Some(s.world.vault.counter)
  }

  /** Staging commits beside the served version. */
  lemma StageCommits(s: Sys, fingerprint: string) returns (run: seq<Action>)
    requires Current(s)
    ensures Legal(s, run)
    ensures var s', v := After(s, run), s.world.vault.counter + 1;
            && s'.row == s.row.(kv := Some(v), staged := Some(v), stagedKey := s'.row.stagedKey)
            && Describes(s'.row.stagedKey, fingerprint, v) && Added(s.world.vault, s'.world.vault, v, fingerprint)
            && s'.active.None? && s'.undo == s.undo && s'.discard == s.discard
  {
    var stage := Step(Stage(fingerprint, FINE));
    var s1 := Do(s, Begin);
    var s2 := Do(s1, stage);
    assert MayCommit(s2.active.value);
    RunCons(s2, Commit, []);
    RunCons(s1, stage, [Commit]);
    RunCons(s, Begin, [stage] + [Commit]);
    run := [Begin] + ([stage] + [Commit]);
  }

  /** A staged rotation: the new version, still in the store, is served under its key, and nothing is deleted. */
  lemma StagedRotationCompletes(s: Sys, fingerprint: string) returns (run: seq<Action>)
    requires Current(s) && forall v :: v in s.world.vault.deleted ==> v <= s.world.vault.counter
    ensures Legal(s, run)
    ensures var s', v := After(s, run), s.world.vault.counter + 1;
            && s'.row.live == s'.row.kv == Some(v) && s'.row.staged.None? && Describes(s'.row.liveKey, fingerprint, v)
            && s'.world.vault.deleted == s.world.vault.deleted && s'.undo == s.undo && s'.discard == s.discard
            && v in s'.served && s.served <= s'.served
  {
    var stage := StageCommits(s, fingerprint);
    var s0 := After(s, stage);
    var s1 := Do(s0, Begin);
    var s2 := Do(s1, Step(Promote(true)));
    assert MayCommit(s2.active.value);
    RunCons(s2, Commit, []);
    RunCons(s1, Step(Promote(true)), [Commit]);
    RunCons(s0, Begin, [Step(Promote(true))] + [Commit]);
    RunConcat(s, stage, [Begin] + ([Step(Promote(true))] + [Commit]));
    run := stage + ([Begin] + ([Step(Promote(true))] + [Commit]));
    ServedGrows(s, stage);
  }

  /** A staged version given up: it is deleted after the commit, and what was served stays served. */
  lemma StagedRotationGivenUp(s: Sys, fingerprint: string) returns (run: seq<Action>)
    requires Current(s) && s.undo == {} && s.discard == {}
    ensures Legal(s, run)
    ensures var s', v := After(s, run), s.world.vault.counter + 1;
            && s'.row.live == s.row.live && s'.row.liveKey == s.row.liveKey && s'.row.staged.None?
            && s'.world.vault.deleted == s.world.vault.deleted + {v} && s'.undo == {} && s'.discard == {}
  {
    var v := s.world.vault.counter + 1;
    var stage := StageCommits(s, fingerprint);
    var s0 := After(s, stage);
    var s1 := Do(s0, Begin);
    var s2 := Do(s1, Step(Discard(true)));
    assert MayCommit(s2.active.value);
    var d := s2.active.value.deletions;
    assert |d| == 1 && d[0].version == Some(v) && d[1..] == [];
    assert Known(d) == [v] + Known(d[1..]) == [v];
    assert VersionSet(d) == {v};
    var s3 := Do(s2, Commit);
    RunCons(s3, SendDelete(v, true), []);
    RunCons(s2, Commit, [SendDelete(v, true)]);
    RunCons(s1, Step(Discard(true)), [Commit] + [SendDelete(v, true)]);
    RunCons(s0, Begin, [Step(Discard(true))] + ([Commit] + [SendDelete(v, true)]));
    RunConcat(s, stage, [Begin] + ([Step(Discard(true))] + ([Commit] + [SendDelete(v, true)])));
    run := stage + ([Begin] + ([Step(Discard(true))] + ([Commit] + [SendDelete(v, true)])));
  }

  lemma {:induction false} ServedGrows(s: Sys, run: seq<Action>)
    requires Legal(s, run)
    ensures s.served <= After(s, run).served
    decreases |run|
  {
    if run != [] {
      ServedGrows(Do(s, run[0]), run[1..]);
    }
  }

  ghost predicate Idle(s: Sys) {
    s.active.None? && s.row.live.None? && (s.row.kv.Some? ==> s.row.kv.value <= s.world.vault.counter)
  }

  lemma DiscardFirst(s: Sys) returns (run: seq<Action>)
    requires Idle(s)
    ensures Legal(s, run) && Idle(After(s, run)) && After(s, run).row.staged.None?
  {
    run := [];
    if s.row.staged.Some? {
      var s1 := Do(s, Begin);
      var s2 := Do(s1, Step(Discard(true)));
      assert MayCommit(s2.active.value);
      RunCons(s2, Commit, []);
      RunCons(s1, Step(Discard(true)), [Commit]);
      RunCons(s, Begin, [Step(Discard(true))] + [Commit]);
      run := [Begin] + ([Step(Discard(true))] + [Commit]);
    }
  }

  lemma RefreshFirst(s: Sys) returns (run: seq<Action>)
    requires Idle(s)
    ensures Legal(s, run) && Idle(After(s, run))
    ensures After(s, run).row.staged == s.row.staged && After(s, run).world == s.world && After(s, run).undo == s.undo
    ensures s.world.vault.Accepts(After(s, run).row.kv)
    ensures s.world.vault.counter > 0 ==> After(s, run).row.kv == Some(s.world.vault.counter)
  {
    run := [];
    var c := s.world.vault.counter;
    if c > 0 {
      var s1 := Do(s, JobRead);
      RunCons(s1, JobWrite(c), []);
      RunCons(s, JobRead, [JobWrite(c)]);
      run := [JobRead] + [JobWrite(c)];
    }
  }

  /** A write that is rolled back leaves its version recorded nowhere but due for deletion. */
  lemma WriteAndRollBack(s: Sys) returns (run: seq<Action>)
    requires Idle(s) && s.row.staged.None? && s.world.vault.Accepts(s.row.kv)
    ensures Legal(s, run) && Idle(After(s, run)) && After(s, run).row.staged.None?
    ensures After(s, run).world.vault.counter == s.world.vault.counter + 1
    ensures s.world.vault.counter + 1 in After(s, run).undo
  {
    var write := Step(Replace(Recorded, "", FINE));
    var s1 := Do(s, Begin);
    var s2 := Do(s1, write);
    VersionSetMember(s2.active.value.attempts);
    assert s2.active.value.attempts[0].version == Some(s.world.vault.counter + 1);
    RunCons(s2, RollBack, []);
    RunCons(s1, write, [RollBack]);
    RunCons(s, Begin, [write] + [RollBack]);
    run := [Begin] + ([write] + [RollBack]);
  }

  /** Staging pins the empty live pointer to the recorded version, which the late delete then removes. */
  lemma PinThenDelete(s: Sys) returns (run: seq<Action>)
    requires Idle(s) && s.row.staged.None? && s.row.kv == Some(s.world.vault.counter)
    requires s.world.vault.counter in s.undo
    ensures Legal(s, run) && !LiveFound(After(s, run))
  {
    var v := s.world.vault.counter;
    var stage := Step(Stage("", FINE));
    var s1 := Do(s, Begin);
    var s2 := Do(s1, stage);
    assert MayCommit(s2.active.value);
    var s3 := Do(s2, Commit);
    assert s3.row.live == Some(v);
    RunCons(s3, SendDelete(v, true), []);
    RunCons(s2, Commit, [SendDelete(v, true)]);
    RunCons(s1, stage, [Commit] + [SendDelete(v, true)]);
    RunCons(s, Begin, [stage] + ([Commit] + [SendDelete(v, true)]));
    run := [Begin] + ([stage] + ([Commit] + [SendDelete(v, true)]));
  }

  /** From every quiet start with an empty live pointer some run serves a deleted version. */
  lemma EmptyPointerBreaks(s: Sys) returns (run: seq<Action>)
    requires Start(s) && s.row.live.None?
    ensures Legal(s, run) && !LiveFound(After(s, run))
  {
    var r1 := DiscardFirst(s);
    var s1 := After(s, r1);
    var r2 := RefreshFirst(s1);
    var s2 := After(s1, r2);
    var r3 := WriteAndRollBack(s2);
    var s3 := After(s2, r3);
    var r4 := RefreshFirst(s3);
    var s4 := After(s3, r4);
    var r5 := PinThenDelete(s4);
    RunConcat(s3, r4, r5);
    RunConcat(s2, r3, r4 + r5);
    RunConcat(s1, r2, r3 + (r4 + r5));
    RunConcat(s, r1, r2 + (r3 + (r4 + r5)));
    run := r1 + (r2 + (r3 + (r4 + r5)));
  }

  /** The live pointer is safe over all runs exactly when it is set at the start. */
  lemma LivePointerSafeIff(s: Sys)
    requires Start(s)
    ensures (forall run :: Legal(s, run) ==> LiveFound(After(s, run))) <==> s.row.live.Some?
  {
    if s.row.live.Some? {
      forall run | Legal(s, run)
        ensures LiveFound(After(s, run))
      {
        LivePointerSafety(s, run);
      }
    } else {
      var run := EmptyPointerBreaks(s);
    }
  }

  // ------------------------------------------------------------------
  // The recorded counter
  // ------------------------------------------------------------------

  predicate NotAhead(row: Row, counter: nat) {
    row.kv.Some? ==> row.kv.value <= counter
  }

  /** Holds with or without a live pointer. */
  ghost predicate CounterOK(s: Sys) {
    var c := s.world.vault.counter;
    && NotAhead(s.row, c)
    && (forall v :: v in s.jobs ==> v <= c)
    && (s.active.Some? ==>
          var o := s.active.value;
          && NotAhead(o.now.row, c)
          && (forall i :: 0 <= i < |o.savepoints| ==> NotAhead(o.savepoints[i].row, c))
          && (forall i :: 0 <= i < |o.attempts| && o.attempts[i].version.Some? ==>
                s.row.kv.Some? ==> s.row.kv.value < o.attempts[i].version.value <= c))
  }

  lemma CounterStep(s: Sys, ev: Event)
    requires CounterOK(s) && s.active.Some?
    ensures CounterOK(Do(s, Step(ev)))
  {
    var o := s.active.value;
    var t := Apply(ev, o, s.world);
    VaultGrows(ev, o, s.world);
    forall i | 0 <= i < |t.owner.savepoints|
      ensures NotAhead(t.owner.savepoints[i].row, t.world.vault.counter)
    {
      SavepointsCome(ev, o, s.world, i);
    }
    forall i | 0 <= i < |t.owner.attempts| && t.owner.attempts[i].version.Some?
      ensures (i < |o.attempts| && t.owner.attempts[i] == o.attempts[i])
              || t.owner.attempts[i].version.value == s.world.vault.counter + 1 == t.world.vault.counter
    {
      NewAttempts(ev, o, s.world, i);
    }
  }

  lemma NewAttempts(ev: Event, o: Owner, w: World, i: nat)
    requires i < |Apply(ev, o, w).owner.attempts|
    ensures var t := Apply(ev, o, w);
            (i < |o.attempts| && t.owner.attempts[i] == o.attempts[i])
            || (t.owner.attempts[i].version.Some? ==>
                  t.owner.attempts[i].version.value == w.vault.counter + 1 == t.world.vault.counter)
  {
  }

  lemma CounterDo(s: Sys, a: Action)
    requires CounterOK(s) && Enabled(s, a)
    ensures CounterOK(Do(s, a)) && s.world.vault.counter <= Do(s, a).world.vault.counter
  {
    match a
    case Step(ev) =>
      CounterStep(s, ev);
      VaultGrows(ev, s.active.value, s.world);
    case _ =>
  }

  lemma {:induction false} CounterRun(s: Sys, run: seq<Action>)
    requires CounterOK(s) && Legal(s, run)
    ensures CounterOK(After(s, run)) && s.world.vault.counter <= After(s, run).world.vault.counter
    decreases |run|
  {
    if run != [] {
      CounterDo(s, run[0]);
      CounterRun(Do(s, run[0]), run[1..]);
    }
  }

  /** The recorded version never exceeds the store's, even with unlocked stale refreshes. */
  lemma RecordedNeverAhead(s: Sys, run: seq<Action>)
    requires Start(s) && Legal(s, run)
    ensures NotAhead(After(s, run).row, After(s, run).world.vault.counter)
  {
    CounterRun(s, run);
  }

  /** A successful write checked against the recorded version returns exactly the next one. */
  lemma CheckedWriteIsNext(ev: Event, o: Owner, w: World)
    requires ev.Stage? || (ev.Replace? && ev.cas.Recorded?)
    requires o.now.row.kv.Some? && !Apply(ev, o, w).raised
    ensures var t := Apply(ev, o, w);
            && w.vault.counter == o.now.row.kv.value
            && t.owner.now.row.kv == Some(o.now.row.kv.value + 1) == Last(t.owner.attempts).version
            && t.world.vault.counter == o.now.row.kv.value + 1
  {
  }

  ghost predicate Issued(vault: Vault) {
    forall v :: v in vault.prints ==> v <= vault.counter
  }

  /** Material at an issued version is never overwritten. */
  lemma {:induction false} NothingOverwritten(s: Sys, run: seq<Action>, v: nat)
    requires Legal(s, run) && Issued(s.world.vault) && v in s.world.vault.prints
    ensures Issued(After(s, run).world.vault)
    ensures v in After(s, run).world.vault.prints
    ensures After(s, run).world.vault.prints[v] == s.world.vault.prints[v]
    decreases |run|
  {
    if run != [] {
      if run[0].Step? {
        VaultGrows(run[0].ev, s.active.value, s.world);
      }
      NothingOverwritten(Do(s, run[0]), run[1..], v);
    }
  }

  /** After a rollback that must compensate, a recorded version lags behind the store. */
  lemma RollBackLeavesLag(s: Sys, run: seq<Action>)
    requires Start(s) && Legal(s, run) && Enabled(After(s, run), RollBack)
    requires Known(After(s, run).active.value.attempts) != []
    ensures var s' := Do(After(s, run), RollBack);
            s'.row.kv.Some? ==> Lagging(s', s'.world.vault.counter)
  {
    CounterRun(s, run);
    var o := After(s, run).active.value;
    KnownMember(o.attempts, Known(o.attempts)[0]);
  }

  /**
   * No refresh catches up with the counter, and no store names it as its
   * expected version; rotate and stage name the record.
   */
  predicate StaysBehind(a: Action, counter: nat) {
    && (a.JobWrite? ==> a.value < counter)
    && (a.Step? && a.ev.Replace? && a.ev.cas.Given? ==> a.ev.cas.expected.Some? && a.ev.cas.expected.value != counter)
  }

  predicate AllBehind(run: seq<Action>, counter: nat) {
    forall i :: 0 <= i < |run| ==> StaysBehind(run[i], counter)
  }

  predicate RecordBehind(row: Row, counter: nat) {
    row.kv.Some? && row.kv.value < counter
  }

  ghost predicate Lagging(s: Sys, counter: nat) {
    && s.world.vault.counter == counter && RecordBehind(s.row, counter)
    && (s.active.Some? ==>
          && RecordBehind(s.active.value.now.row, counter)
          && (forall i :: 0 <= i < |s.active.value.savepoints| ==>
                RecordBehind(s.active.value.savepoints[i].row, counter)))
  }

  lemma LaggingStep(s: Sys, counter: nat, ev: Event)
    requires Lagging(s, counter) && s.active.Some? && StaysBehind(Step(ev), counter)
    ensures Lagging(Do(s, Step(ev)), counter)
    ensures ev.Replace? || ev.Stage? ==> Apply(ev, s.active.value, s.world).raised
  {
    var o := s.active.value;
    var t := Apply(ev, o, s.world);
    forall i | 0 <= i < |t.owner.savepoints|
      ensures RecordBehind(t.owner.savepoints[i].row, counter)
    {
      SavepointsCome(ev, o, s.world, i);
    }
  }

  /**
   * While the record lags every rotate and stage is refused, stale refreshes
   * included: the store's counter stands still.
   */
  lemma {:induction false} RefusedUntilRefresh(s: Sys, run: seq<Action>, counter: nat)
    requires Lagging(s, counter) && Legal(s, run) && AllBehind(run, counter)
    ensures Lagging(After(s, run), counter)
    decreases |run|
  {
    if run != [] {
      assert StaysBehind(run[0], counter) && AllBehind(run[1..], counter);
      if run[0].Step? {
        LaggingStep(s, counter, run[0].ev);
      }
      RefusedUntilRefresh(Do(s, run[0]), run[1..], counter);
    }
  }

  /** With an empty record rotate names no expected version, and the store takes the write. */
  lemma EmptyRecordIsNotRefused(s: Sys) returns (run: seq<Action>)
    requires s.active.None? && s.row.kv.None?
    ensures Legal(s, run) && AllBehind(run, s.world.vault.counter)
    ensures After(s, run).world.vault.counter == s.world.vault.counter + 1
    ensures After(s, run).active.Some? && !After(s, run).active.value.failed
  {
    var write := Step(Replace(Recorded, "", FINE));
    RunCons(Do(s, Begin), write, []);
    RunCons(s, Begin, [write]);
    run := [Begin] + [write];
  }

  /** No write gets through before a refresh catches up. */
  ghost predicate Blocked(s: Sys) {
    forall run :: Legal(s, run) && AllBehind(run, s.world.vault.counter) ==>
      After(s, run).world.vault.counter == s.world.vault.counter
  }

  /**
   * After a rollback that must compensate, rotate and stage are refused over
   * every run until a refresh catches the counter up, if and only if a version
   * was recorded.
   */
  lemma RefusalIff(s: Sys, run: seq<Action>)
    requires Start(s) && Legal(s, run) && Enabled(After(s, run), RollBack)
    requires Known(After(s, run).active.value.attempts) != []
    ensures var s' := Do(After(s, run), RollBack); Blocked(s') <==> s'.row.kv.Some?
  {
    var s' := Do(After(s, run), RollBack);
    if s'.row.kv.Some? {
      RollBackLeavesLag(s, run);
      forall rest | Legal(s', rest) && AllBehind(rest, s'.world.vault.counter)
        ensures After(s', rest).world.vault.counter == s'.world.vault.counter
      {
        RefusedUntilRefresh(s', rest, s'.world.vault.counter);
      }
    } else {
      var rest := EmptyRecordIsNotRefused(s');
    }
  }

  /** A refresh that reads the current counter lifts the refusal. */
  lemma RefreshLifts(s: Sys, fingerprint: string)
    requires s.active.None? && s.world.vault.counter in s.jobs
    ensures var s1 := Do(Do(s, JobWrite(s.world.vault.counter)), Begin);
            !Apply(Replace(Recorded, fingerprint, FINE), s1.active.value, s1.world).raised
  {
  }
}
