/**
 * One credential seen by one material owner.
 *
 * The secret store keeps a version counter that never goes back and the set of
 * deleted versions. The credential row keeps the recorded counter, the served
 * version and the staged version. An owner works on an uncommitted copy of the
 * row, stacks savepoints, and remembers every write and every discard so that
 * it can compensate or clean up once its transaction has ended.
 */
module Material {
  import opened Prelude

  /** `prints` records the public-key fingerprint of the material at each version. */
  datatype Vault = Vault(counter: nat, deleted: set<nat>, prints: map<nat, string>) {
    predicate Has(v: nat) {
      1 <= v <= counter && v !in deleted
    }

    /** Check-and-set: no precondition, or the expected current version. */
    predicate Accepts(cas: Option<nat>) {
      cas.Some? ==> cas.value == counter
    }

    function Issue(fingerprint: string): Vault {
      Vault(counter + 1, deleted, prints[counter + 1 := fingerprint])
    }

    function Delete(v: nat): Vault {
      this.(deleted := deleted + {v})
    }
  }

  datatype KeyIdentity = KeyIdentity(fingerprint: string, version: Option<nat>)

  const NO_KEY := KeyIdentity("", None)

  datatype Row = Row(
    kv: Option<nat>,
    live: Option<nat>,
    staged: Option<nat>,
    liveKey: KeyIdentity,
    stagedKey: KeyIdentity)

  /** record_key_version */
  function RecordKey(row: Row, fingerprint: string, version: nat, promote: bool): Row {
    var key := KeyIdentity(fingerprint, if fingerprint != "" then Some(version) else None);
    if promote then row.(liveKey := key, stagedKey := NO_KEY) else row.(stagedKey := key)
  }

  /** The row after store_credential recorded an acknowledged write. */
  function Stored(row: Row, version: nat, fingerprint: string, promote: bool): Row {
    var recorded := RecordKey(row.(kv := Some(version)), fingerprint, version, promote);
    if promote then recorded.(live := Some(version), staged := None) else recorded.(staged := Some(version))
  }

  /** stage_material fixes an empty live pointer to the recorded version first. */
  function Pinned(row: Row): Row {
    if row.live.None? && row.kv.Some? then row.(live := row.kv) else row
  }

  function Promoted(row: Row): Row
    requires row.staged.Some?
  {
    var fingerprint := if row.stagedKey.version == row.staged then row.stagedKey.fingerprint else "";
    RecordKey(row, fingerprint, row.staged.value, true).(live := row.staged, staged := None)
  }

  function Discarded(row: Row): Row {
    row.(staged := None, stagedKey := NO_KEY)
  }

  /** A remembered write or discard: the version it knows and its audit row. */
  datatype Attempt = Attempt(path: string, version: Option<nat>, audit: Option<nat>)

  /** What the open transaction sees: the row and the audit rows it inserted. */
  datatype Snapshot = Snapshot(row: Row, audits: set<nat>)

  /** What really happened to the store, kept apart from the owner's own lists. */
  datatype Effect = Wrote(version: nat, acknowledged: bool) | Cleared(version: nat)

  datatype Owner = Owner(
    path: string,
    now: Snapshot,
    savepoints: seq<Snapshot>,
    attempts: seq<Attempt>,
    deletions: seq<Attempt>,
    failed: bool,
    trace: seq<Effect>)

  datatype World = World(vault: Vault, nextAudit: nat)

  datatype Cas = Recorded | Given(expected: Option<nat>)

  datatype Reply = Acknowledged | Lost(applied: bool)

  /** How the parts of one material write behave after it was issued. */
  datatype Luck = Luck(reply: Reply, saved: bool, audited: bool)

  datatype Event =
    | Replace(cas: Cas, fingerprint: string, luck: Luck)
    | Stage(fingerprint: string, luck: Luck)
    | Promote(listed: bool)
    | Discard(audited: bool)
    | Mark
    | Release
    | Undo
    | Fault

  /** `raised` says that the step ended in an exception. */
  datatype Turn = Turn(owner: Owner, world: World, raised: bool)

  function Refuse(o: Owner, w: World): Turn {
    Turn(o.(failed := true), w, true)
  }

  function CasValue(cas: Cas, row: Row): Option<nat> {
    match cas
    case Recorded => row.kv
    case Given(c) => c
  }

  /** store_credential after its locks are held. */
  function Store(o: Owner, w: World, cas: Option<nat>, fingerprint: string, promote: bool, luck: Luck): Turn {
    var blank := Attempt(o.path, None, None);
    if !w.vault.Accepts(cas) || luck.reply == Lost(false) then
      Refuse(o.(attempts := o.attempts + [blank]), w)
    else
      var v := w.vault.counter + 1;
      var w1 := w.(vault := w.vault.Issue(fingerprint));
      if luck.reply.Lost? then
        Refuse(o.(attempts := o.attempts + [blank], trace := o.trace + [Wrote(v, false)]), w1)
      else if !luck.saved then
        Refuse(o.(attempts := o.attempts + [Attempt(o.path, Some(v), None)], trace := o.trace + [Wrote(v, true)]), w1)
      else
        var row := Stored(o.now.row, v, fingerprint, promote);
        var traced := o.(trace := o.trace + [Wrote(v, true)]);
        if luck.audited then
          Turn(traced.(now := Snapshot(row, o.now.audits + {w.nextAudit}),
                       attempts := o.attempts + [Attempt(o.path, Some(v), Some(w.nextAudit))]),
               w1.(nextAudit := w.nextAudit + 1), false)
        else
          Turn(traced.(now := Snapshot(row, o.now.audits),
                       attempts := o.attempts + [Attempt(o.path, Some(v), None)]), w1, false)
  }

  function StageStep(o: Owner, w: World, fingerprint: string, luck: Luck): Turn {
    if o.now.row.staged.Some? then
      Refuse(o, w)
    else
      var row := Pinned(o.now.row);
      Store(o.(now := o.now.(row := row)), w, row.kv, fingerprint, false, luck)
  }

  function PromoteStep(o: Owner, w: World, listed: bool): Turn {
    if o.now.row.staged.None? || !listed || !w.vault.Has(o.now.row.staged.value) then
      Refuse(o, w)
    else
      Turn(o.(now := o.now.(row := Promoted(o.now.row))), w, false)
  }

  function DiscardStep(o: Owner, w: World, audited: bool): Turn {
    if o.now.row.staged.None? then
      Refuse(o, w)
    else
      var v := o.now.row.staged.value;
      var row := Discarded(o.now.row);
      var traced := o.(trace := o.trace + [Cleared(v)]);
      if audited then
        Turn(traced.(now := Snapshot(row, o.now.audits + {w.nextAudit}),
                     deletions := o.deletions + [Attempt(o.path, Some(v), Some(w.nextAudit))]),
             w.(nextAudit := w.nextAudit + 1), false)
      else
        Turn(traced.(now := Snapshot(row, o.now.audits),
                     deletions := o.deletions + [Attempt(o.path, Some(v), None)]), w, false)
  }

  /** One step of the code that runs inside an owner. */
  function Apply(ev: Event, o: Owner, w: World): Turn {
    match ev
    case Replace(cas, fingerprint, luck) => Store(o, w, CasValue(cas, o.now.row), fingerprint, true, luck)
    case Stage(fingerprint, luck) => StageStep(o, w, fingerprint, luck)
    case Promote(listed) => PromoteStep(o, w, listed)
    case Discard(audited) => DiscardStep(o, w, audited)
    case Mark => Turn(o.(savepoints := o.savepoints + [o.now]), w, false)
    case Release => Turn(if o.savepoints == [] then o else o.(savepoints := DropLast(o.savepoints)), w, false)
    case Undo =>
      Turn(if o.savepoints == [] then o
           else o.(now := Last(o.savepoints), savepoints := DropLast(o.savepoints)), w, false)
    case Fault => Refuse(o, w)
  }

  /** material_transaction opens the owner on the committed row. */
  function Opened(path: string, row: Row): Owner {
    Owner(path, Snapshot(row, {}), [], [], [], false, [])
  }

  predicate Retained(a: Attempt, audits: set<nat>) {
    a.audit.Some? && a.audit.value in audits
  }

  /** witness: every remembered write and discard still has its audit row. */
  predicate Witness(o: Owner) {
    forall i :: 0 <= i < |o.attempts + o.deletions| ==> Retained((o.attempts + o.deletions)[i], o.now.audits)
  }

  predicate MayCommit(o: Owner) {
    !o.failed && Witness(o) && o.savepoints == []
  }

  /** The identity describes this version's key, or is empty when there is no key to describe. */
  predicate Describes(key: KeyIdentity, fingerprint: string, version: nat) {
    && key.fingerprint == fingerprint
    && (fingerprint != "" ==> key.version == Some(version))
    && (fingerprint == "" ==> key.version == None)
  }

  predicate Empty(key: KeyIdentity) {
    key.fingerprint == "" && key.version == None
  }

  /** A new version with this key is in the store, and nothing else changed there. */
  ghost predicate Added(vault: Vault, vault': Vault, version: nat, fingerprint: string) {
    && version == vault.counter + 1 == vault'.counter && vault'.deleted == vault.deleted
    && version in vault'.prints && vault'.prints[version] == fingerprint
    && (forall v :: v != version ==> (v in vault.prints <==> v in vault'.prints))
    && (forall v :: v != version && v in vault.prints ==> vault'.prints[v] == vault.prints[v])
  }

  /**
   * What each successful operation does to the row and the store: a replacement
   * serves the version just issued, under the identity of its key, and drops any
   * staged one; staging records the new version and its identity beside what was
   * served before; promotion serves what was staged, and moves the staged
   * identity along if it was bound to the staged version; a discard leaves the
   * served version alone and remembers exactly what it cleared.
   */
  lemma ServedAfter(ev: Event, o: Owner, w: World)
    requires !Apply(ev, o, w).raised
    ensures var row, t := o.now.row, Apply(ev, o, w);
            var row', issued := t.owner.now.row, t.world.vault.counter;
            && (ev.Replace? ==>
                  && row'.live == row'.kv == Some(issued) && row'.staged.None?
                  && Describes(row'.liveKey, ev.fingerprint, issued) && Empty(row'.stagedKey)
                  && Added(w.vault, t.world.vault, issued, ev.fingerprint))
            && (ev.Stage? ==>
                  && row.staged.None? && row'.staged == row'.kv == Some(issued)
                  && (row'.live == if row.live.Some? then row.live else row.kv)
                  && Describes(row'.stagedKey, ev.fingerprint, issued) && row'.liveKey == row.liveKey
                  && Added(w.vault, t.world.vault, issued, ev.fingerprint))
            && (ev.Promote? ==>
                  && row.staged.Some? && row'.live == row.staged && row'.staged.None? && row'.kv == row.kv
                  && (row.stagedKey.version == row.staged ==>
                        Describes(row'.liveKey, row.stagedKey.fingerprint, row.staged.value))
                  && (row.stagedKey.version != row.staged ==> Empty(row'.liveKey)) && Empty(row'.stagedKey)
                  && t.world == w)
            && (ev.Discard? ==>
                  && row'.live == row.live && row'.staged.None? && row'.kv == row.kv
                  && row'.liveKey == row.liveKey && Empty(row'.stagedKey)
                  && Last(t.owner.deletions).version == row.staged && Last(t.owner.deletions).path == o.path
                  && t.world.vault == w.vault)
            && (ev.Mark? || ev.Release? ==> row' == row && t.world == w && t.owner.now == o.now)
            && (ev.Undo? && o.savepoints != [] ==> t.owner.now == o.savepoints[|o.savepoints| - 1] && t.world == w)
  {
  }

  /** The version a checked write expects to be current. */
  predicate Expects(ev: Event, row: Row, version: nat) {
    match ev
    case Replace(cas, _, _) => if cas.Recorded? then row.kv == Some(version) else cas.expected == Some(version)
    case Stage(_, _) => row.kv == Some(version)
    case _ => false
  }

  /**
   * When a step raises. A write does exactly when the version it expects is not
   * the current one, its answer is lost or its row is not saved; staging also
   * when something is staged already; a promotion when its version cannot be seen
   * in the store; a discard when nothing is staged. The owner is then refused,
   * and its row is as it was but for the live pointer that staging has pinned.
   */
  lemma RaisesIff(ev: Event, o: Owner, w: World)
    ensures var row, t := o.now.row, Apply(ev, o, w);
            && (t.raised <==>
                  match ev
                  case Replace(_, _, luck) =>
                    (exists v: nat :: v != w.vault.counter && Expects(ev, row, v)) || luck.reply.Lost? || !luck.saved
                  case Stage(_, luck) =>
                    || row.staged.Some? || (exists v: nat :: v != w.vault.counter && Expects(ev, row, v))
                    || luck.reply.Lost? || !luck.saved
                  case Promote(listed) =>
                    || row.staged.None? || !listed || row.staged.value == 0 || row.staged.value > w.vault.counter
                    || row.staged.value in w.vault.deleted
                  case Discard(_) => row.staged.None?
                  case Fault => true
                  case _ => false)
            && (t.raised ==>
                  && t.owner.failed && t.owner.now.audits == o.now.audits && t.world.nextAudit == w.nextAudit
                  && (t.owner.now.row == row
                      || (ev.Stage? && row.live.None? && t.owner.now.row == row.(live := row.kv))))
            && (!t.raised ==> t.owner.failed == o.failed)
  {
    var row := o.now.row;
    if ev.Replace? && !w.vault.Accepts(CasValue(ev.cas, row)) {
      assert Expects(ev, row, CasValue(ev.cas, row).value);
    }
    if ev.Stage? && !w.vault.Accepts(row.kv) {
      assert Expects(ev, row, row.kv.value);
    }
  }

  // ------------------------------------------------------------------
  // What every step of an owner keeps
  // ------------------------------------------------------------------

  function Known(attempts: seq<Attempt>): seq<nat> {
    if attempts == [] then []
    else (if attempts[0].version.Some? then [attempts[0].version.value] else []) + Known(attempts[1..])
  }

  function Acked(trace: seq<Effect>): seq<nat> {
    if trace == [] then []
    else (if trace[0].Wrote? && trace[0].acknowledged then [trace[0].version] else []) + Acked(trace[1..])
  }

  function ClearedIn(trace: seq<Effect>): seq<nat> {
    if trace == [] then []
    else (if trace[0].Cleared? then [trace[0].version] else []) + ClearedIn(trace[1..])
  }

  lemma {:induction false} KnownAppend(s: seq<Attempt>, a: Attempt)
    ensures Known(s + [a]) == Known(s) + (if a.version.Some? then [a.version.value] else [])
  {
    if s == [] {
      assert s + [a] == [a];
    } else {
      var head := if s[0].version.Some? then [s[0].version.value] else [];
      var tail := if a.version.Some? then [a.version.value] else [];
      calc {
        Known(s + [a]);
        { assert (s + [a])[0] == s[0] && (s + [a])[1..] == s[1..] + [a]; }
        head + Known(s[1..] + [a]);
        { KnownAppend(s[1..], a); }
        head + (Known(s[1..]) + tail);
        (head + Known(s[1..])) + tail;
        Known(s) + tail;
      }
    }
  }

  lemma {:induction false} TraceAppend(s: seq<Effect>, e: Effect)
    ensures Acked(s + [e]) == Acked(s) + (if e.Wrote? && e.acknowledged then [e.version] else [])
    ensures ClearedIn(s + [e]) == ClearedIn(s) + (if e.Cleared? then [e.version] else [])
  {
    if s == [] {
      assert s + [e] == [e];
    } else {
      assert (s + [e])[1..] == s[1..] + [e];
      TraceAppend(s[1..], e);
    }
  }

  lemma {:induction false} KnownMember(s: seq<Attempt>, v: nat)
    ensures v in Known(s) <==> exists i :: 0 <= i < |s| && s[i].version == Some(v)
  {
    if s != [] {
      KnownMember(s[1..], v);
      if i :| 0 <= i < |s| && s[i].version == Some(v) {
        if i > 0 {
          assert s[1..][i - 1].version == Some(v);
        }
      }
      if j :| 0 <= j < |s[1..]| && s[1..][j].version == Some(v) {
        assert s[j + 1].version == Some(v);
      }
    }
  }

  /** The owner's lists say exactly what it did to the store, in order. */
  ghost predicate Honest(o: Owner) {
    && Known(o.attempts) == Acked(o.trace)
    && Known(o.deletions) == ClearedIn(o.trace)
    && (forall i :: 0 <= i < |o.deletions| ==> o.deletions[i].version.Some?)
  }

  lemma HonestWrite(o: Owner, o': Owner, a: Attempt, e: Effect)
    requires Honest(o)
    requires o'.attempts == o.attempts + [a] && o'.deletions == o.deletions && o'.trace == o.trace + [e]
    requires e.Wrote? && a.version == if e.acknowledged then Some(e.version) else None
    ensures Honest(o')
  {
    KnownAppend(o.attempts, a);
    TraceAppend(o.trace, e);
  }

  lemma HonestStore(o: Owner, w: World, cas: Option<nat>, fingerprint: string, promote: bool, luck: Luck)
    requires Honest(o)
    ensures Honest(Store(o, w, cas, fingerprint, promote, luck).owner)
  {
    var o' := Store(o, w, cas, fingerprint, promote, luck).owner;
    if !w.vault.Accepts(cas) || luck.reply == Lost(false) {
      KnownAppend(o.attempts, Attempt(o.path, None, None));
    } else if luck.reply.Lost? {
      HonestWrite(o, o', Attempt(o.path, None, None), Wrote(w.vault.counter + 1, false));
    } else {
      var audit := if luck.saved && luck.audited then Some(w.nextAudit) else None;
      HonestWrite(o, o', Attempt(o.path, Some(w.vault.counter + 1), audit), Wrote(w.vault.counter + 1, true));
    }
  }

  lemma HonestDiscard(o: Owner, w: World, audited: bool)
    requires Honest(o)
    ensures Honest(DiscardStep(o, w, audited).owner)
  {
    var o' := DiscardStep(o, w, audited).owner;
    if o.now.row.staged.Some? {
      KnownAppend(o.deletions, Last(o'.deletions));
      TraceAppend(o.trace, Last(o'.trace));
    }
  }

  lemma HonestStage(o: Owner, w: World, fingerprint: string, luck: Luck)
    requires Honest(o)
    ensures Honest(Apply(Stage(fingerprint, luck), o, w).owner)
  {
    var row := Pinned(o.now.row);
    HonestStore(o.(now := o.now.(row := row)), w, row.kv, fingerprint, false, luck);
  }

  /** The remaining events leave the lists and the trace alone. */
  lemma RestKeepsLists(ev: Event, o: Owner, w: World)
    requires !ev.Replace? && !ev.Stage? && !ev.Discard?
    ensures var o' := Apply(ev, o, w).owner;
            o'.attempts == o.attempts && o'.deletions == o.deletions && o'.trace == o.trace
  {
  }

  lemma HonestStep(ev: Event, o: Owner, w: World)
    requires Honest(o)
    ensures Honest(Apply(ev, o, w).owner)
  {
    match ev
    case Replace(cas, fingerprint, luck) => HonestStore(o, w, CasValue(cas, o.now.row), fingerprint, true, luck);
    case Stage(fingerprint, luck) => HonestStage(o, w, fingerprint, luck);
    case Discard(audited) => HonestDiscard(o, w, audited);
    case _ => RestKeepsLists(ev, o, w);
  }

  /** Savepoints nest: a deeper one has seen at least the audit rows of the outer ones. */
  ghost predicate AuditsNest(o: Owner, w: World) {
    && (forall a :: a in o.now.audits ==> a < w.nextAudit)
    && (forall i :: 0 <= i < |o.savepoints| ==> o.savepoints[i].audits <= o.now.audits)
    && (forall i, j :: 0 <= i <= j < |o.savepoints| ==> o.savepoints[i].audits <= o.savepoints[j].audits)
  }

  lemma AuditsNestStep(ev: Event, o: Owner, w: World)
    requires AuditsNest(o, w)
    ensures AuditsNest(Apply(ev, o, w).owner, Apply(ev, o, w).world)
  {
  }

  /** Lists only grow, a refusal is never forgotten, audit numbers are never reused. */
  ghost predicate Extends(o: Owner, w: World, o': Owner, w': World) {
    && o.attempts <= o'.attempts
    && o.deletions <= o'.deletions
    && o.trace <= o'.trace
    && (o.failed ==> o'.failed)
    && w.nextAudit <= w'.nextAudit
    && w.vault.counter <= w'.vault.counter
    && w.vault.deleted == w'.vault.deleted
  }

  lemma ExtendsStep(ev: Event, o: Owner, w: World)
    ensures Extends(o, w, Apply(ev, o, w).owner, Apply(ev, o, w).world)
  {
  }

  /** An audit row that a savepoint rollback removed never comes back. */
  ghost predicate NoRevival(o: Owner, w: World, o': Owner) {
    forall id :: id < w.nextAudit && id in o'.now.audits ==> id in o.now.audits
  }

  lemma NoRevivalStep(ev: Event, o: Owner, w: World)
    requires AuditsNest(o, w)
    ensures NoRevival(o, w, Apply(ev, o, w).owner)
  {
  }

  /** A lost reply marks the owner failed, and only a saved write is audited. */
  ghost predicate Candid(o: Owner, w: World) {
    && (!o.failed ==> forall i :: 0 <= i < |o.trace| ==> o.trace[i].Wrote? ==> o.trace[i].acknowledged)
    && (forall i :: 0 <= i < |o.attempts| && o.attempts[i].audit.Some? ==>
          o.attempts[i].version.Some? && o.attempts[i].audit.value < w.nextAudit)
    && (forall i :: 0 <= i < |o.deletions| && o.deletions[i].audit.Some? ==> o.deletions[i].audit.value < w.nextAudit)
  }

  lemma CandidStore(o: Owner, w: World, cas: Option<nat>, fingerprint: string, promote: bool, luck: Luck)
    requires Candid(o, w)
    ensures Candid(Store(o, w, cas, fingerprint, promote, luck).owner,
                   Store(o, w, cas, fingerprint, promote, luck).world)
  {
  }

  lemma CandidStep(ev: Event, o: Owner, w: World)
    requires Candid(o, w)
    ensures Candid(Apply(ev, o, w).owner, Apply(ev, o, w).world)
  {
    match ev
    case Replace(cas, fingerprint, luck) => CandidStore(o, w, CasValue(cas, o.now.row), fingerprint, true, luck);
    case Stage(fingerprint, luck) =>
      CandidStore(o.(now := o.now.(row := Pinned(o.now.row))), w, Pinned(o.now.row).kv, fingerprint, false, luck);
    case _ =>
  }

  /** In this view no retained discard names a version that is still staged, and none is named twice. */
  ghost predicate SettledView(sn: Snapshot, deletions: seq<Attempt>, counter: nat) {
    && (sn.row.staged.Some? ==> sn.row.staged.value <= counter)
    && (forall i :: 0 <= i < |deletions| && Retained(deletions[i], sn.audits) ==>
          && deletions[i].version.Some?
          && deletions[i].version.value <= counter
          && deletions[i].version != sn.row.staged)
    && (forall i, j :: 0 <= i < j < |deletions| ==>
          Retained(deletions[i], sn.audits) && Retained(deletions[j], sn.audits) ==>
            deletions[i].version != deletions[j].version)
  }

  ghost predicate Settled(o: Owner, w: World) {
    && Candid(o, w)
    && AuditsNest(o, w)
    && SettledView(o.now, o.deletions, w.vault.counter)
    && (forall i :: 0 <= i < |o.savepoints| ==> SettledView(o.savepoints[i], o.deletions, w.vault.counter))
  }

  lemma DeletionsGrow(ev: Event, o: Owner, w: World)
    ensures var t := Apply(ev, o, w);
            && o.deletions <= t.owner.deletions && w.vault.counter <= t.world.vault.counter
            && (forall i :: |o.deletions| <= i < |t.owner.deletions| && t.owner.deletions[i].audit.Some? ==>
                  t.owner.deletions[i].audit.value == w.nextAudit)
  {
  }

  lemma SettledLater(sn: Snapshot, before: seq<Attempt>, after: seq<Attempt>, counter: nat, counter': nat, next: nat)
    requires SettledView(sn, before, counter) && before <= after && counter <= counter'
    requires forall a :: a in sn.audits ==> a < next
    requires forall i :: |before| <= i < |after| && after[i].audit.Some? ==> after[i].audit.value == next
    ensures SettledView(sn, after, counter')
  {
    assert forall i :: 0 <= i < |before| ==> after[i] == before[i];
  }

  /** Views taken before a step stay settled after it: its audit row is new to them. */
  lemma SettledOldView(sn: Snapshot, ev: Event, o: Owner, w: World)
    requires SettledView(sn, o.deletions, w.vault.counter)
    requires forall a :: a in sn.audits ==> a < w.nextAudit
    ensures SettledView(sn, Apply(ev, o, w).owner.deletions, Apply(ev, o, w).world.vault.counter)
  {
    DeletionsGrow(ev, o, w);
    SettledLater(sn, o.deletions, Apply(ev, o, w).owner.deletions,
                 w.vault.counter, Apply(ev, o, w).world.vault.counter, w.nextAudit);
  }

  /** Adding a fresh audit row to a view retains no earlier discard that it did not retain before. */
  lemma RetainedBefore(o: Owner, w: World, audits: set<nat>, i: nat)
    requires Candid(o, w) && i < |o.deletions|
    requires audits <= o.now.audits + {w.nextAudit} && Retained(o.deletions[i], audits)
    ensures Retained(o.deletions[i], o.now.audits)
  {
  }

  lemma SettledStoreNow(o: Owner, w: World, cas: Option<nat>, fingerprint: string, promote: bool, luck: Luck)
    requires Candid(o, w) && SettledView(o.now, o.deletions, w.vault.counter)
    ensures var t := Store(o, w, cas, fingerprint, promote, luck);
            SettledView(t.owner.now, t.owner.deletions, t.world.vault.counter)
  {
    var t := Store(o, w, cas, fingerprint, promote, luck);
    assert t.owner.deletions == o.deletions;
    forall i | 0 <= i < |o.deletions| && Retained(o.deletions[i], t.owner.now.audits)
      ensures Retained(o.deletions[i], o.now.audits)
    {
      RetainedBefore(o, w, t.owner.now.audits, i);
    }
  }

  lemma SettledDiscardNow(o: Owner, w: World, audited: bool)
    requires Candid(o, w) && SettledView(o.now, o.deletions, w.vault.counter)
    ensures var t := DiscardStep(o, w, audited);
            SettledView(t.owner.now, t.owner.deletions, t.world.vault.counter)
  {
    var t := DiscardStep(o, w, audited);
    forall i | 0 <= i < |o.deletions| && Retained(o.deletions[i], t.owner.now.audits)
      ensures Retained(o.deletions[i], o.now.audits) && t.owner.deletions[i] == o.deletions[i]
    {
      RetainedBefore(o, w, t.owner.now.audits, i);
    }
  }

  lemma SettledNow(ev: Event, o: Owner, w: World)
    requires Settled(o, w) && !ev.Undo?
    ensures SettledView(Apply(ev, o, w).owner.now, Apply(ev, o, w).owner.deletions, Apply(ev, o, w).world.vault.counter)
  {
    match ev
    case Replace(cas, fingerprint, luck) => SettledStoreNow(o, w, CasValue(cas, o.now.row), fingerprint, true, luck);
    case Stage(fingerprint, luck) =>
      SettledStoreNow(o.(now := o.now.(row := Pinned(o.now.row))), w, Pinned(o.now.row).kv, fingerprint, false, luck);
    case Discard(audited) => SettledDiscardNow(o, w, audited);
    case _ =>
  }

  lemma SettledStep(ev: Event, o: Owner, w: World)
    requires Settled(o, w)
    ensures Settled(Apply(ev, o, w).owner, Apply(ev, o, w).world)
  {
    var t := Apply(ev, o, w);
    CandidStep(ev, o, w);
    AuditsNestStep(ev, o, w);
    forall i | 0 <= i < |o.savepoints|
      ensures SettledView(o.savepoints[i], t.owner.deletions, t.world.vault.counter)
    {
      SettledOldView(o.savepoints[i], ev, o, w);
    }
    SettledOldView(o.now, ev, o, w);
    if !ev.Undo? {
      SettledNow(ev, o, w);
    }
  }
}
