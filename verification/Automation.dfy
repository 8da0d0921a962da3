/**
 * One-use automation resolution: any number of concurrent calls over shared
 * rows. Each call resolves its metadata row by row, commits a receipt for its
 * dispatch key, and in a second transaction re-authorizes, resolves, reads,
 * resolves again, audits and returns. Any call may be refused, lose an answer or
 * die at any point, and any transaction may change any row nobody has locked.
 */
module Automation {
  import opened Prelude
  import L = LockOrder

  // ------------------------------------------------------------------
  // Shared rows
  // ------------------------------------------------------------------

  /**
   * `profile`, `config` and `fields` stand for all further columns that an
   * identity compares. A credential's type is built in, or the slug of a schema.
   */
  datatype Data =
    | ServiceRow(parent: nat)
    | PolicyRow(backend: nat)
    | EngineRow(config: nat)
    | CredentialRow(
        uuid: nat, policy: nat, engine: nat, slug: Option<nat>, live: Option<nat>, staged: Option<nat>, profile: nat)
    | AssignmentRow(credential: nat, service: Option<nat>, target: nat, purpose: nat, enabled: bool)
    | SchemaRow(named: nat, fields: nat)

  type Rows = map<L.RowId, Data>

  function ServiceId(pk: nat): L.RowId { L.RowId(L.Service, pk) }
  function PolicyId(pk: nat): L.RowId { L.RowId(L.Policy, pk) }
  function EngineId(pk: nat): L.RowId { L.RowId(L.Engine, pk) }
  function CredentialId(pk: nat): L.RowId { L.RowId(L.Credential, pk) }
  function AssignmentId(pk: nat): L.RowId { L.RowId(L.Assignment, pk) }
  function SchemaId(pk: nat): L.RowId { L.RowId(L.Schema, pk) }

  /** execution, nonce digest, step and reference name: the receipt's unique key. */
  datatype Key = Key(execution: nat, nonce: nat, step: nat, reference: nat)

  /** The frozen snapshot of one resolution; `fields` is what it takes from a stored schema. */
  datatype Identity = Identity(
    uuid: nat, assignment: nat, purpose: nat, policy: nat, engine: nat, config: nat, profile: nat,
    slug: Option<nat>, fields: Option<nat>)

  /** What one authorization returns: its nonce, its reference, the frozen identity, a version pin. */
  datatype Authority = Authority(key: Key, want: L.Want, identity: Identity, pinned: Option<nat>)

  /** _assignment_rows: enabled, of the purpose, on the target or a service of it, and selected by the reference. */
  predicate Matches(db: Rows, w: L.Want, a: nat) {
    var r := AssignmentId(a);
    && r in db && db[r].AssignmentRow? && db[r].purpose == w.purpose && db[r].enabled
    && (match w.selector
        case ByAssignment(pk) => a == pk
        case ByCredential(uuid) =>
          var k := CredentialId(db[r].credential);
          k in db && db[k].CredentialRow? && db[k].uuid == uuid)
    && if db[r].service.None? then db[r].target == w.target else
         var s := ServiceId(db[r].service.value);
         s in db && db[s].ServiceRow? && db[s].parent == w.target
  }

  // ------------------------------------------------------------------
  // One resolution, row by row
  // ------------------------------------------------------------------

  /** What a resolution has read so far. */
  datatype Pick = Pick(
    assignment: nat, service: Option<nat>, credential: nat, policy: nat, engine: nat, schema: Option<nat>)

  /** The next thing a resolution does. */
  datatype At =
    | Looking | WantService | Selecting | WantPolicy | WantEngine | WantCredential | WantAssignment
    | Naming | WantSchema | Checking | Resolved

  function Order(at: At): nat {
    match at
    case Looking => 0
    case WantService => 1
    case Selecting => 2
    case WantPolicy => 3
    case WantEngine => 4
    case WantCredential => 5
    case WantAssignment => 6
    case Naming => 7
    case WantSchema => 8
    case Checking => 9
    case Resolved => 10
  }

  function NextAt(at: At): At {
    match at
    case Looking => WantService
    case WantService => Selecting
    case Selecting => WantPolicy
    case WantPolicy => WantEngine
    case WantEngine => WantCredential
    case WantCredential => WantAssignment
    case WantAssignment => Naming
    case Naming => WantSchema
    case WantSchema => Checking
    case _ => Resolved
  }

  predicate IsCredential(db: Rows, pk: nat) {
    CredentialId(pk) in db && db[CredentialId(pk)].CredentialRow?
  }

  /** The schema row that has the slug. */
  predicate Named(db: Rows, r: L.RowId, slug: nat) {
    r.kind == L.Schema && r in db && db[r].SchemaRow? && db[r].named == slug
  }

  predicate SameSlug(db: Rows, r: L.RowId, q: L.RowId) {
    r in db && db[r].SchemaRow? && Named(db, r, db[r].named) && Named(db, q, db[r].named)
  }

  /** Slugs are unique. */
  predicate Unique(db: Rows) {
    forall r, q {:trigger SameSlug(db, r, q)} :: r in db && q in db && SameSlug(db, r, q) ==> r == q
  }

  /** The type of the chosen credential. */
  function SlugAt(db: Rows, pick: Pick): Option<nat> {
    if IsCredential(db, pick.credential) then db[CredentialId(pick.credential)].slug else None
  }

  /** get_schema: nothing stored for a built-in type, else the row that has the slug now. */
  predicate LooksUp(db: Rows, slug: Option<nat>, schema: Option<nat>) {
    if slug.None? then schema.None? else schema.Some? && Named(db, SchemaId(schema.value), slug.value)
  }

  /** The type is built in or some row has its slug. */
  predicate Resolves(db: Rows, slug: Option<nat>) {
    slug.Some? ==> exists r :: r in db && Named(db, r, slug.value)
  }

  /** The row the step locks, if any. */
  function Target(at: At, pick: Pick): Option<L.RowId> {
    match at
    case WantService => if pick.service.Some? then Some(ServiceId(pick.service.value)) else None
    case WantPolicy => Some(PolicyId(pick.policy))
    case WantEngine => Some(EngineId(pick.engine))
    case WantCredential => Some(CredentialId(pick.credential))
    case WantAssignment => Some(AssignmentId(pick.assignment))
    case WantSchema => if pick.schema.Some? then Some(SchemaId(pick.schema.value)) else None
    case _ => None
  }

  /** _version: the live version, refused when empty, zero, staged, or not the pinned one. */
  function VersionAt(db: Rows, pick: Pick, a: Authority): Option<nat> {
    if !IsCredential(db, pick.credential) then None else
      var k := db[CredentialId(pick.credential)];
      if k.live.None? || k.live.value == 0 || k.live == k.staged then None
      else if a.pinned.Some? && a.pinned != k.live then None
      else k.live
  }

  /** What must hold of the rows for the step to go on; otherwise the call is refused. */
  predicate Passes(db: Rows, at: At, pick: Pick, a: Authority) {
    match at
    case WantService => pick.service.Some? ==> ServiceId(pick.service.value) in db
    case Selecting => IsCredential(db, pick.credential)
    case WantPolicy => PolicyId(pick.policy) in db && db[PolicyId(pick.policy)].PolicyRow?
    case WantEngine => EngineId(pick.engine) in db && db[EngineId(pick.engine)].EngineRow?
    case WantCredential =>
      && IsCredential(db, pick.credential)
      && db[CredentialId(pick.credential)].policy == pick.policy
      && db[CredentialId(pick.credential)].engine == pick.engine
    case WantAssignment =>
      var r := AssignmentId(pick.assignment);
      && r in db && db[r].AssignmentRow? && db[r].credential == pick.credential
      && (pick.service.Some? ==> Matches(db, a.want, pick.assignment))
    case WantSchema =>
      pick.schema.Some? ==> SchemaId(pick.schema.value) in db && db[SchemaId(pick.schema.value)].SchemaRow?
    case Checking =>
      Matches(db, a.want, pick.assignment) && VersionAt(db, pick, a).Some? && Resolves(db, SlugAt(db, pick))
    case _ => false
  }

  function PickAfter(db: Rows, at: At, pick: Pick): Pick {
    if at.Selecting? && IsCredential(db, pick.credential)
    then pick.(policy := db[CredentialId(pick.credential)].policy, engine := db[CredentialId(pick.credential)].engine)
    else pick
  }

  /** The part of the identity that is read from locked rows. */
  function BaseAt(db: Rows, pick: Pick): Option<Identity> {
    var a, p, e := AssignmentId(pick.assignment), PolicyId(pick.policy), EngineId(pick.engine);
    if !IsCredential(db, pick.credential) || a !in db || !db[a].AssignmentRow? || p !in db || !db[p].PolicyRow?
       || e !in db || !db[e].EngineRow? || db[p].backend != pick.engine then None else
      var k := db[CredentialId(pick.credential)];
      Some(Identity(k.uuid, pick.assignment, db[a].purpose, pick.policy, pick.engine, db[e].config,
                    k.profile, k.slug, None))
  }

  predicate BaseIs(db: Rows, pick: Pick, id: Identity) {
    BaseAt(db, pick) == Some(id.(fields := None))
  }

  /** The part that is read from whatever schema row has the slug at the call. */
  predicate FieldsAre(db: Rows, slug: Option<nat>, fields: Option<nat>) {
    if slug.None? then fields.None?
    else fields.Some? && exists r :: r in db && Named(db, r, slug.value) && db[r].fields == fields.value
  }

  /** _identity is this one. */
  predicate Identified(db: Rows, pick: Pick, id: Identity) {
    BaseIs(db, pick, id) && FieldsAre(db, SlugAt(db, pick), id.fields)
  }

  // ------------------------------------------------------------------
  // Calls
  // ------------------------------------------------------------------

  datatype Receipt = Receipt(uuid: nat, assignment: nat, version: nat, nonce: nat)

  /** A committed receipt and the call that inserted it. */
  datatype Entry = Entry(receipt: Receipt, caller: nat)

  /**
   * A delivery past its first resolution: what it re-authorized, chose and is
   * about to read, and the shared rows when it checked the assignment and when it
   * compared the identity.
   */
  datatype Job = Job(
    receipt: Receipt, again: Authority, first: Pick, version: nat, audit: nat, checked: Rows, compared: Rows)

  datatype Phase =
    | Reserving
    | Inserting(draft: Receipt)
    | Spent(held: Receipt)
    | Delivering(due: Receipt)
    | Reading(job: Job)
    | Rechecking(read: Job)
    | Closing(closed: Job, after: Pick, rechecked: Rows, recompared: Rows)
    | Returned
    | Refused

  /** `checked` are the shared rows when the resolution checked its assignment. */
  datatype Proc = Proc(
    key: Key, authority: Authority, phase: Phase, at: At, pick: Pick, locks: set<L.RowId>, checked: Rows)

  datatype ReadEvent = ReadEvent(key: Key, caller: nat, version: nat)

  /**
   * A returned bundle, with the shared rows when it checked its assignment and
   * compared the identity the second time, and the locks and the shared rows when
   * its transaction committed.
   */
  datatype Delivered = Delivered(
    key: Key, caller: nat, job: Job, after: Pick, rechecked: Rows, recompared: Rows, locks: set<L.RowId>, rows: Rows)

  /** `successes` are the committed audit rows marked successful. */
  datatype Sys = Sys(
    db: Rows,
    procs: map<nat, Proc>,
    receipts: map<Key, Entry>,
    successes: set<nat>,
    nextAudit: nat,
    readLog: seq<ReadEvent>,
    deliveries: seq<Delivered>)

  datatype Action =
    | Start(c: nat, authority: Authority)
    | Look(c: nat, a: nat)
    | Pass(c: nat)
    | Name(c: nat, schema: Option<nat>)
    | Reserve(c: nat)
    | CommitReceipt(c: nat)
    | LoseReceipt(c: nat, applied: bool)
    | Redeliver(c: nat, again: Authority)
    | Admit(c: nat)
    | ReadMaterial(c: nat)
    | Close(c: nat)
    | CommitDelivery(c: nat)
    | LoseDelivery(c: nat, applied: bool)
    | Refuse(c: nat)
    | Write(changes: map<L.RowId, Option<Data>>)

  const NOTHING := Pick(0, None, 0, 0, 0, None)

  predicate LockedByOther(s: Sys, c: nat, r: L.RowId) {
    exists d :: d in s.procs && d != c && r in s.procs[d].locks
  }

  predicate Untouched(s: Sys, r: L.RowId) {
    forall d :: d in s.procs ==> r !in s.procs[d].locks
  }

  /** The phases in which a resolution is under way. */
  predicate Resolving(p: Phase) {
    p.Reserving? || p.Delivering? || p.Rechecking?
  }

  /** A finished resolution whose identity is the frozen one. */
  predicate Confirmed(db: Rows, p: Proc) {
    p.at.Resolved? && Identified(db, p.pick, p.authority.identity) && VersionAt(db, p.pick, p.authority).Some?
  }

  function ReceiptFor(db: Rows, p: Proc): Receipt
    requires Confirmed(db, p)
  {
    Receipt(p.authority.identity.uuid, p.pick.assignment, VersionAt(db, p.pick, p.authority).value,
            p.authority.key.nonce)
  }

  /** Nobody else is inserting a receipt under the key. */
  predicate IndexFree(s: Sys, c: nat, k: Key) {
    k !in s.receipts && forall d :: d in s.procs && d != c && s.procs[d].phase.Inserting? ==> s.procs[d].key != k
  }

  predicate Enabled(s: Sys, act: Action) {
    match act
    case Start(c, _) => c !in s.procs
    case Look(c, a) =>
      && c in s.procs && Resolving(s.procs[c].phase) && s.procs[c].at.Looking?
      && Matches(s.db, s.procs[c].authority.want, a)
      && forall r :: r in s.db && r.kind == L.Assignment && Matches(s.db, s.procs[c].authority.want, r.pk) ==> r.pk == a
    case Pass(c) =>
      && c in s.procs && Resolving(s.procs[c].phase)
      && (var p := s.procs[c];
          && !p.at.Looking? && !p.at.Resolved? && Passes(s.db, p.at, p.pick, p.authority)
          && (Target(p.at, p.pick).Some? ==> !LockedByOther(s, c, Target(p.at, p.pick).value)))
    case Name(c, schema) =>
      && c in s.procs && Resolving(s.procs[c].phase) && s.procs[c].at.Naming?
      && LooksUp(s.db, SlugAt(s.db, s.procs[c].pick), schema)
    case Reserve(c) =>
      c in s.procs && s.procs[c].phase.Reserving? && Confirmed(s.db, s.procs[c]) && IndexFree(s, c, s.procs[c].key)
    case CommitReceipt(c) => c in s.procs && s.procs[c].phase.Inserting?
    case LoseReceipt(c, _) => c in s.procs && s.procs[c].phase.Inserting?
    case Redeliver(c, _) => c in s.procs && s.procs[c].phase.Spent?
    case Admit(c) =>
      && c in s.procs && s.procs[c].phase.Delivering? && Confirmed(s.db, s.procs[c])
      && ReceiptFor(s.db, s.procs[c]) == s.procs[c].phase.due
    case ReadMaterial(c) => c in s.procs && s.procs[c].phase.Reading?
    case Close(c) =>
      && c in s.procs && s.procs[c].phase.Rechecking? && Confirmed(s.db, s.procs[c])
      && VersionAt(s.db, s.procs[c].pick, s.procs[c].authority) == Some(s.procs[c].phase.read.version)
    case CommitDelivery(c) => c in s.procs && s.procs[c].phase.Closing?
    case LoseDelivery(c, _) => c in s.procs && s.procs[c].phase.Closing?
    case Refuse(c) => c in s.procs && !s.procs[c].phase.Returned?
    case Write(changes) => (forall r :: r in changes ==> Untouched(s, r)) && Unique(Written(s.db, changes))
  }

  function Put(s: Sys, c: nat, p: Proc): Sys {
    s.(procs := s.procs[c := p])
  }

  /** The receipt row of the inserting call becomes durable. */
  function Record(s: Sys, c: nat): Sys
    requires c in s.procs && s.procs[c].phase.Inserting?
  {
    s.(receipts := s.receipts[s.procs[c].key := Entry(s.procs[c].phase.draft, c)])
  }

  /** A transaction ended: its locks are gone. */
  function Ended(p: Proc, phase: Phase): Proc {
    p.(phase := phase, at := Looking, pick := NOTHING, locks := {})
  }

  function LookAfter(db: Rows, p: Proc, a: nat): Proc
    requires AssignmentId(a) in db && db[AssignmentId(a)].AssignmentRow?
  {
    var row := db[AssignmentId(a)];
    p.(at := WantService, pick := Pick(a, row.service, row.credential, 0, 0, None))
  }

  function PassAfter(db: Rows, p: Proc): Proc {
    var r := Target(p.at, p.pick);
    p.(at := NextAt(p.at), pick := PickAfter(db, p.at, p.pick),
       locks := if r.Some? then p.locks + {r.value} else p.locks,
       checked := if p.at.Checking? then db else p.checked)
  }

  function Written(db: Rows, changes: map<L.RowId, Option<Data>>): Rows {
    map r | r in db.Keys + changes.Keys && (r in changes ==> changes[r].Some?) ::
      if r in changes then changes[r].value else db[r]
  }

  function Admitted(db: Rows, p: Proc, audit: nat): Job
    requires p.phase.Delivering? && Confirmed(db, p)
  {
    Job(p.phase.due, p.authority, p.pick, VersionAt(db, p.pick, p.authority).value, audit, p.checked, db)
  }

  function Closed(db: Rows, p: Proc): Proc
    requires p.phase.Rechecking?
  {
    p.(phase := Closing(p.phase.read, p.pick, p.checked, db))
  }

  function Outcome(db: Rows, c: nat, p: Proc): Delivered
    requires p.phase.Closing?
  {
    Delivered(p.key, c, p.phase.closed, p.phase.after, p.phase.rechecked, p.phase.recompared, p.locks, db)
  }

  function Do(s: Sys, act: Action): Sys
    requires Enabled(s, act)
  {
    match act
    case Start(c, a) => Put(s, c, Proc(a.key, a, Reserving, Looking, NOTHING, {}, map[]))
    case Look(c, a) => Put(s, c, LookAfter(s.db, s.procs[c], a))
    case Pass(c) => Put(s, c, PassAfter(s.db, s.procs[c]))
    case Name(c, schema) =>
      Put(s, c, s.procs[c].(at := WantSchema, pick := s.procs[c].pick.(schema := schema)))
    case Reserve(c) => Put(s, c, s.procs[c].(phase := Inserting(ReceiptFor(s.db, s.procs[c]))))
    case CommitReceipt(c) => Put(Record(s, c), c, Ended(s.procs[c], Spent(s.procs[c].phase.draft)))
    case LoseReceipt(c, applied) => Put(if applied then Record(s, c) else s, c, Ended(s.procs[c], Refused))
    case Redeliver(c, again) => Put(s, c, s.procs[c].(authority := again, phase := Delivering(s.procs[c].phase.held)))
    case Admit(c) =>
      var p := s.procs[c];
      Put(s.(nextAudit := s.nextAudit + 1), c, p.(phase := Reading(Admitted(s.db, p, s.nextAudit))))
    case ReadMaterial(c) =>
      var p := s.procs[c];
      Put(s.(readLog := s.readLog + [ReadEvent(p.key, c, p.phase.job.version)]), c,
          p.(phase := Rechecking(p.phase.job), at := Looking, pick := NOTHING))
    case Close(c) => Put(s, c, Closed(s.db, s.procs[c]))
    case CommitDelivery(c) =>
      var p := s.procs[c];
      Put(s.(successes := s.successes + {p.phase.closed.audit}, deliveries := s.deliveries + [Outcome(s.db, c, p)]),
          c, Ended(p, Returned))
    case LoseDelivery(c, applied) =>
      Put(if applied then s.(successes := s.successes + {s.procs[c].phase.closed.audit}) else s,
          c, Ended(s.procs[c], Refused))
    case Refuse(c) => Put(s, c, Ended(s.procs[c], Refused))
    case Write(changes) => s.(db := Written(s.db, changes))
  }

  predicate Legal(s: Sys, run: seq<Action>)
    decreases |run|
  {
    run == [] || (Enabled(s, run[0]) && Legal(Do(s, run[0]), run[1..]))
  }

  function After(s: Sys, run: seq<Action>): Sys
    requires Legal(s, run)
    decreases |run|
  {
    if run == [] then s else After(Do(s, run[0]), run[1..])
  }

  // ------------------------------------------------------------------
  // What a resolution has pinned down
  // ------------------------------------------------------------------

  /**
   * What entitles a dispatch to the assignment, as the rows have it: enabled, of
   * the purpose, selected by the reference, on the target or on a service of it.
   */
  ghost predicate Entitled(db: Rows, w: L.Want, a: nat) {
    && EntitledRow(db, w, a)
    && (db[AssignmentId(a)].service.Some? ==>
          var k := ServiceId(db[AssignmentId(a)].service.value);
          k in db && db[k].ServiceRow? && db[k].parent == w.target)
  }

  /** The same, but for the parent of the service. */
  ghost predicate EntitledRow(db: Rows, w: L.Want, a: nat) {
    && AssignmentId(a) in db && db[AssignmentId(a)].AssignmentRow?
    && db[AssignmentId(a)].enabled && db[AssignmentId(a)].purpose == w.purpose
    && (w.selector.ByAssignment? ==> w.selector.pk == a)
    && (w.selector.ByCredential? ==>
          var k := CredentialId(db[AssignmentId(a)].credential);
          k in db && db[k].CredentialRow? && db[k].uuid == w.selector.pk)
    && (db[AssignmentId(a)].service.None? ==> db[AssignmentId(a)].target == w.target)
  }

  /** The identity a chain of rows has, from the assignment on, but for what a schema adds. */
  ghost predicate Identifies(db: Rows, a: nat, id: Identity) {
    && AssignmentId(a) in db && db[AssignmentId(a)].AssignmentRow? && id.assignment == a
    && id.purpose == db[AssignmentId(a)].purpose
    && var k := CredentialId(db[AssignmentId(a)].credential);
    && k in db && db[k].CredentialRow?
    && id.uuid == db[k].uuid && id.policy == db[k].policy && id.engine == db[k].engine
    && id.profile == db[k].profile && id.slug == db[k].slug
    && EngineId(id.engine) in db && db[EngineId(id.engine)].EngineRow? && id.config == db[EngineId(id.engine)].config
    && PolicyId(id.policy) in db && db[PolicyId(id.policy)].PolicyRow? && db[PolicyId(id.policy)].backend == id.engine
  }

  /** The service the assignment hangs off is locked. */
  ghost predicate Anchored(db: Rows, locks: set<L.RowId>, a: nat) {
    AssignmentId(a) in db && db[AssignmentId(a)].AssignmentRow? && db[AssignmentId(a)].service.Some? ==>
      ServiceId(db[AssignmentId(a)].service.value) in locks
  }

  /** Checked, and still so in all that is locked. */
  ghost predicate RightOK(db: Rows, locks: set<L.RowId>, w: L.Want, a: nat, checked: Rows) {
    Entitled(checked, w, a) && EntitledRow(db, w, a) && (Anchored(db, locks, a) ==> Entitled(db, w, a))
  }

  lemma MatchIsEntitled(db: Rows, w: L.Want, a: nat)
    ensures Matches(db, w, a) <==> Entitled(db, w, a)
  {
  }

  /** A resolution goes on with an assignment exactly if it is the only one the dispatch is entitled to. */
  lemma LookIff(s: Sys, c: nat, a: nat)
    requires c in s.procs && Resolving(s.procs[c].phase) && s.procs[c].at.Looking?
    ensures var w := s.procs[c].authority.want;
            Enabled(s, Look(c, a)) <==> Entitled(s.db, w, a) && forall b :: Entitled(s.db, w, b) ==> b == a
  {
    var w := s.procs[c].authority.want;
    forall b
      ensures Matches(s.db, w, b) <==> Entitled(s.db, w, b)
    {
      MatchIsEntitled(s.db, w, b);
    }
    if Enabled(s, Look(c, a)) {
      forall b | Entitled(s.db, w, b)
        ensures b == a
      {
        assert AssignmentId(b) in s.db && AssignmentId(b).pk == b;
      }
    }
  }

  /** What a resolution that has come this far must not find in the rows. */
  ghost predicate Broken(db: Rows, p: Proc) {
    var k, a := CredentialId(p.pick.credential), AssignmentId(p.pick.assignment);
    match p.at
    case WantService => p.pick.service.Some? && ServiceId(p.pick.service.value) !in db
    case Selecting => k !in db
    case WantPolicy => PolicyId(p.pick.policy) !in db
    case WantEngine => EngineId(p.pick.engine) !in db
    case WantCredential =>
      k !in db || (db[k].CredentialRow? && (db[k].policy != p.pick.policy || db[k].engine != p.pick.engine))
    case WantAssignment =>
      || a !in db || (db[a].AssignmentRow? && db[a].credential != p.pick.credential)
      || (p.pick.service.Some? && !Entitled(db, p.authority.want, p.pick.assignment))
    case WantSchema => p.pick.schema.Some? && SchemaId(p.pick.schema.value) !in db
    case Checking =>
      || !Entitled(db, p.authority.want, p.pick.assignment)
      || k !in db
      || (db[k].CredentialRow?
          && (db[k].live.None? || db[k].live == Some(0) || db[k].live == db[k].staged
              || (p.authority.pinned.Some? && p.authority.pinned != db[k].live)
              || (db[k].slug.Some? && forall r :: r in db ==> !Named(db, r, db[k].slug.value))))
    case _ => false
  }

  /** After each wait, what was followed is looked at again, and what has changed or vanished is refused. */
  lemma BrokenIsRefused(s: Sys, c: nat)
    requires c in s.procs && Broken(s.db, s.procs[c])
    ensures !Enabled(s, Pass(c))
  {
    MatchIsEntitled(s.db, s.procs[c].authority.want, s.procs[c].pick.assignment);
  }

  lemma RowStable(db: Rows, db': Rows, locks: set<L.RowId>, pick: Pick, w: L.Want)
    requires PassOK(db, locks, Resolved, pick) && Agree(db, db', locks) && EntitledRow(db, w, pick.assignment)
    ensures EntitledRow(db', w, pick.assignment)
  {
    assert db'[AssignmentId(pick.assignment)] == db[AssignmentId(pick.assignment)];
    assert db'[CredentialId(pick.credential)] == db[CredentialId(pick.credential)];
  }

  lemma RightStable(db: Rows, db': Rows, locks: set<L.RowId>, pick: Pick, w: L.Want, checked: Rows)
    requires PassOK(db, locks, Resolved, pick) && Agree(db, db', locks)
    requires RightOK(db, locks, w, pick.assignment, checked)
    ensures RightOK(db', locks, w, pick.assignment, checked)
  {
    RowStable(db, db', locks, pick, w);
  }

  /** A finished resolution's identity is the one its assignment has in the rows. */
  lemma BaseIdentifies(db: Rows, locks: set<L.RowId>, pick: Pick, id: Identity)
    requires PassOK(db, locks, Resolved, pick) && BaseIs(db, pick, id)
    ensures Identifies(db, pick.assignment, id)
  {
  }

  /** Rows locked so far hold what the resolution read from them. */
  ghost predicate PassOK(db: Rows, locks: set<L.RowId>, at: At, pick: Pick) {
    var p, e, k, a := PolicyId(pick.policy), EngineId(pick.engine),
                      CredentialId(pick.credential), AssignmentId(pick.assignment);
    && (Order(at) > 1 && pick.service.Some? ==> ServiceId(pick.service.value) in locks)
    && (Order(at) > 3 ==> p in locks && p in db && db[p].PolicyRow?)
    && (Order(at) > 4 ==> e in locks && e in db && db[e].EngineRow?)
    && (Order(at) > 5 ==>
          k in locks && IsCredential(db, pick.credential) && db[k].policy == pick.policy && db[k].engine == pick.engine)
    && (Order(at) > 6 ==> a in locks && a in db && db[a].AssignmentRow? && db[a].credential == pick.credential)
    && (Order(at) > 7 ==> (pick.schema.Some? <==> SlugAt(db, pick).Some?))
    && (Order(at) > 8 && pick.schema.Some? ==>
          var m := SchemaId(pick.schema.value);
          m in locks && m in db && db[m].SchemaRow?)
  }

  /** The locked rows are the same in both. */
  ghost predicate Agree(db: Rows, db': Rows, locks: set<L.RowId>) {
    forall r :: r in locks ==> (r in db <==> r in db') && (r in db ==> db[r] == db'[r])
  }

  lemma PassStable(db: Rows, db': Rows, locks: set<L.RowId>, at: At, pick: Pick)
    requires PassOK(db, locks, at, pick) && Agree(db, db', locks)
    ensures PassOK(db', locks, at, pick)
  {
  }

  /** The type is built in, or the schema that has its slug is among the locked rows. */
  ghost predicate Pinned(db: Rows, locks: set<L.RowId>, pick: Pick) {
    SlugAt(db, pick).Some? ==> exists r :: r in locks && Named(db, r, SlugAt(db, pick).value)
  }

  /** While it holds its rows, what a finished resolution read from them stays true. */
  lemma ResolvedStable(db: Rows, db': Rows, locks: set<L.RowId>, pick: Pick, a: Authority)
    requires PassOK(db, locks, Resolved, pick) && Agree(db, db', locks)
    ensures BaseAt(db', pick) == BaseAt(db, pick) && VersionAt(db', pick, a) == VersionAt(db, pick, a)
    ensures Pinned(db', locks, pick) <==> Pinned(db, locks, pick)
    ensures Unique(db) && Pinned(db, locks, pick) && Identified(db, pick, a.identity) ==>
              Identified(db', pick, a.identity)
  {
    var slug := SlugAt(db, pick);
    if Unique(db) && Pinned(db, locks, pick) && slug.Some? && FieldsAre(db, slug, a.identity.fields) {
      var r :| r in locks && Named(db, r, slug.value);
      var q :| q in db && Named(db, q, slug.value) && db[q].fields == a.identity.fields.value;
      assert SameSlug(db, r, q);
      assert r in db' && Named(db', r, slug.value);
    }
  }

  lemma PassMonotone(db: Rows, locks: set<L.RowId>, more: set<L.RowId>, at: At, pick: Pick)
    requires PassOK(db, locks, at, pick) && locks <= more
    ensures PassOK(db, more, at, pick)
  {
  }

  lemma PassKeeps(db: Rows, p: Proc)
    requires PassOK(db, p.locks, p.at, p.pick) && Passes(db, p.at, p.pick, p.authority)
    ensures PassOK(db, PassAfter(db, p).locks, PassAfter(db, p).at, PassAfter(db, p).pick)
  {
  }

  // ------------------------------------------------------------------
  // Invariant
  // ------------------------------------------------------------------

  ghost predicate Owns(receipts: map<Key, Entry>, c: nat, k: Key, r: Receipt) {
    k in receipts && receipts[k] == Entry(r, c)
  }

  /** What the first resolution saw when it checked and when it compared. */
  ghost predicate JobSeen(j: Job) {
    && Identified(j.compared, j.first, j.again.identity)
    && Identifies(j.compared, j.first.assignment, j.again.identity)
    && Entitled(j.checked, j.again.want, j.first.assignment)
  }

  /** And the second. */
  ghost predicate CloseSeen(j: Job, after: Pick, recompared: Rows) {
    && Entitled(recompared, j.again.want, after.assignment) && Identified(recompared, after, j.again.identity)
    && Identifies(recompared, after.assignment, j.again.identity)
  }

  /** The delivery passed its first checks against the rows it holds and the receipt it was given. */
  ghost predicate JobOK(db: Rows, receipts: map<Key, Entry>, c: nat, p: Proc, j: Job) {
    && Owns(receipts, c, p.key, j.receipt) && p.authority == j.again
    && JobSeen(j) && PassOK(db, p.locks, Resolved, j.first) && EntitledRow(db, j.again.want, j.first.assignment)
    && BaseIs(db, j.first, j.again.identity) && VersionAt(db, j.first, j.again) == Some(j.version)
    && j.receipt == Receipt(j.again.identity.uuid, j.first.assignment, j.version, j.again.key.nonce)
  }

  /** The delivery passed its second checks too. */
  ghost predicate CloseOK(db: Rows, locks: set<L.RowId>, j: Job, after: Pick, rechecked: Rows) {
    && PassOK(db, locks, Resolved, after)
    && RightOK(db, locks, j.again.want, after.assignment, rechecked) && Anchored(db, locks, after.assignment)
    && BaseIs(db, after, j.again.identity) && VersionAt(db, after, j.again) == Some(j.version)
    && (Pinned(db, locks, after) ==> Identified(db, after, j.again.identity))
  }

  ghost predicate PhaseOK(db: Rows, receipts: map<Key, Entry>, c: nat, p: Proc) {
    match p.phase
    case Reserving => true
    case Inserting(_) => p.key !in receipts
    case Spent(r) => Owns(receipts, c, p.key, r) && p.at.Looking?
    case Delivering(r) => Owns(receipts, c, p.key, r)
    case Reading(j) => JobOK(db, receipts, c, p, j)
    case Rechecking(j) =>
      && JobOK(db, receipts, c, p, j)
      && (!p.at.Looking? && p.pick.assignment == j.first.assignment ==>
            p.pick.service == db[AssignmentId(j.first.assignment)].service)
    case Closing(j, after, rechecked, recompared) =>
      JobOK(db, receipts, c, p, j) && CloseSeen(j, after, recompared) && CloseOK(db, p.locks, j, after, rechecked)
    case Returned => p.key in receipts && receipts[p.key].caller == c && p.locks == {}
    case Refused => true
  }

  ghost predicate ProcOK(db: Rows, receipts: map<Key, Entry>, c: nat, p: Proc) {
    && PassOK(db, p.locks, p.at, p.pick) && PhaseOK(db, receipts, c, p)
    && (p.at.Resolved? ==> RightOK(db, p.locks, p.authority.want, p.pick.assignment, p.checked))
  }

  ghost predicate ProcsOK(s: Sys) {
    forall c :: c in s.procs ==> ProcOK(s.db, s.receipts, c, s.procs[c])
  }

  /** Row locks and unique index entries are exclusive. */
  ghost predicate Exclusive(s: Sys) {
    && (forall c, d, r :: c in s.procs && d in s.procs && c != d && r in s.procs[c].locks ==> r !in s.procs[d].locks)
    && (forall c, d :: c in s.procs && d in s.procs && c != d ==>
          s.procs[c].phase.Inserting? && s.procs[d].phase.Inserting? ==> s.procs[c].key != s.procs[d].key)
  }

  /** A receipt belongs to a call that has got past its reservation of that key. */
  ghost predicate ReceiptsOK(s: Sys) {
    forall k :: k in s.receipts ==>
      var c := s.receipts[k].caller;
      c in s.procs && s.procs[c].key == k && !s.procs[c].phase.Reserving? && !s.procs[c].phase.Inserting?
  }

  predicate BeforeRead(p: Phase) {
    p.Spent? || p.Delivering? || p.Reading?
  }

  ghost predicate ReadOK(s: Sys, e: ReadEvent) {
    && e.key in s.receipts && s.receipts[e.key].caller == e.caller && s.receipts[e.key].receipt.version == e.version
    && e.caller in s.procs && !BeforeRead(s.procs[e.caller].phase)
  }

  ghost predicate ReadsOK(s: Sys) {
    && (forall i, j :: 0 <= i < j < |s.readLog| ==> s.readLog[i].key != s.readLog[j].key)
    && (forall i :: 0 <= i < |s.readLog| ==> ReadOK(s, s.readLog[i]))
  }

  /** Both resolutions found the assignment entitled, and the identity was the frozen one at both comparisons. */
  ghost predicate CheckedTwice(d: Delivered) {
    var j := d.job;
    && Entitled(j.checked, j.again.want, j.first.assignment) && Entitled(d.rechecked, j.again.want, d.after.assignment)
    && Entitled(d.recompared, j.again.want, d.after.assignment)
    && Identified(j.compared, j.first, j.again.identity) && Identified(d.recompared, d.after, j.again.identity)
    && Identifies(j.compared, j.first.assignment, j.again.identity)
    && Identifies(d.recompared, d.after.assignment, j.again.identity)
    && j.first.assignment == d.after.assignment == j.receipt.assignment && j.first.credential == d.after.credential
    && j.again.key.nonce == j.receipt.nonce && (j.again.pinned.Some? ==> j.again.pinned == Some(j.version))
  }

  /**
   * At the commit the assignment is still enabled, of the purpose, selected, and
   * on the target or a service of it; the version read is the receipt's, the live
   * one and not the staged one; all of the identity that comes from locked rows is
   * still the frozen one, and so is the rest, if the schema that has the type's
   * slug is locked.
   */
  ghost predicate HoldsAtCommit(d: Delivered) {
    var j := d.job;
    && Entitled(d.rows, j.again.want, d.after.assignment)
    && IsCredential(d.rows, j.first.credential) && j.version == j.receipt.version != 0
    && d.rows[CredentialId(j.first.credential)].live == Some(j.version)
    && d.rows[CredentialId(j.first.credential)].staged != Some(j.version)
    && d.rows[CredentialId(j.first.credential)].uuid == j.receipt.uuid
    && Identifies(d.rows, d.after.assignment, j.again.identity)
    && BaseIs(d.rows, j.first, j.again.identity) && BaseIs(d.rows, d.after, j.again.identity)
    && (Pinned(d.rows, d.locks, d.after) ==> Identified(d.rows, d.after, j.again.identity))
  }

  /** What every returned bundle comes with, under the call's own receipt and with its success audit committed. */
  ghost predicate DeliveredOK(receipts: map<Key, Entry>, successes: set<nat>, d: Delivered) {
    Owns(receipts, d.caller, d.key, d.job.receipt) && d.job.audit in successes && CheckedTwice(d) && HoldsAtCommit(d)
  }

  ghost predicate DeliveriesOK(s: Sys) {
    && (forall i, j :: 0 <= i < j < |s.deliveries| ==> s.deliveries[i].key != s.deliveries[j].key)
    && (forall i :: 0 <= i < |s.deliveries| ==>
          var d := s.deliveries[i];
          && DeliveredOK(s.receipts, s.successes, d)
          && d.caller in s.procs && s.procs[d.caller].phase.Returned? && s.procs[d.caller].key == d.key)
  }

  ghost predicate Inv(s: Sys) {
    Unique(s.db) && ProcsOK(s) && Exclusive(s) && ReceiptsOK(s) && ReadsOK(s) && DeliveriesOK(s)
  }

  // ------------------------------------------------------------------
  // Moving one call
  // ------------------------------------------------------------------

  /** A call moving on while nothing else changes. */
  ghost predicate MayMove(s: Sys, c: nat, p: Proc) {
    && (c in s.procs ==> !s.procs[c].phase.Returned? && p.key == s.procs[c].key)
    && ProcOK(s.db, s.receipts, c, p)
    && (forall r :: r in p.locks ==> !LockedByOther(s, c, r))
    && (p.phase.Inserting? ==> IndexFree(s, c, p.key))
    && (BeforeRead(p.phase) ==> forall i :: 0 <= i < |s.readLog| ==> s.readLog[i].caller != c)
    && (p.phase.Reserving? || p.phase.Inserting? ==> forall k :: k in s.receipts ==> s.receipts[k].caller != c)
  }

  lemma MoveProcs(s: Sys, c: nat, p: Proc)
    requires ProcsOK(s) && Exclusive(s) && ReceiptsOK(s) && MayMove(s, c, p)
    ensures ProcsOK(Put(s, c, p)) && Exclusive(Put(s, c, p)) && ReceiptsOK(Put(s, c, p))
  {
  }

  lemma MoveReads(s: Sys, c: nat, p: Proc)
    requires ReadsOK(s) && MayMove(s, c, p)
    ensures ReadsOK(Put(s, c, p))
  {
    var s' := Put(s, c, p);
    assert forall i :: 0 <= i < |s.readLog| ==> ReadOK(s, s.readLog[i]) && ReadOK(s', s.readLog[i]);
  }

  lemma MoveDeliveries(s: Sys, c: nat, p: Proc)
    requires DeliveriesOK(s) && MayMove(s, c, p)
    ensures DeliveriesOK(Put(s, c, p))
  {
  }

  lemma MoveKeeps(s: Sys, c: nat, p: Proc)
    requires Inv(s) && MayMove(s, c, p)
    ensures Inv(Put(s, c, p))
  {
    MoveProcs(s, c, p);
    MoveReads(s, c, p);
    MoveDeliveries(s, c, p);
  }

  /** A call that has not read has no entry in the log, and one without a receipt owns none. */
  lemma NotYet(s: Sys, c: nat)
    requires Inv(s) && c in s.procs
    ensures BeforeRead(s.procs[c].phase) ==> forall i :: 0 <= i < |s.readLog| ==> s.readLog[i].caller != c
    ensures s.procs[c].phase.Reserving? || s.procs[c].phase.Inserting? ==>
      (forall k :: k in s.receipts ==> s.receipts[k].caller != c)
      && (forall i :: 0 <= i < |s.readLog| ==> s.readLog[i].caller != c)
  {
    assert forall i :: 0 <= i < |s.readLog| ==> ReadOK(s, s.readLog[i]);
  }

  lemma OwnLocks(s: Sys, c: nat)
    requires Exclusive(s) && c in s.procs
    ensures forall r :: r in s.procs[c].locks ==> !LockedByOther(s, c, r)
  {
  }

  lemma EndKeeps(s: Sys, c: nat)
    requires Inv(s) && c in s.procs && !s.procs[c].phase.Returned?
    ensures Inv(Put(s, c, Ended(s.procs[c], Refused)))
  {
    MoveKeeps(s, c, Ended(s.procs[c], Refused));
  }

  lemma StartKeeps(s: Sys, c: nat, a: Authority)
    requires Inv(s) && c !in s.procs
    ensures Inv(Do(s, Start(c, a)))
  {
    assert forall i :: 0 <= i < |s.readLog| ==> ReadOK(s, s.readLog[i]);
    MoveKeeps(s, c, Proc(a.key, a, Reserving, Looking, NOTHING, {}, map[]));
  }

  lemma LookKeeps(s: Sys, c: nat, a: nat)
    requires Inv(s) && Enabled(s, Look(c, a))
    ensures Inv(Do(s, Look(c, a)))
  {
    NotYet(s, c);
    OwnLocks(s, c);
    MoveKeeps(s, c, LookAfter(s.db, s.procs[c], a));
  }

  /** More locks and another place in the resolution do not disturb the phase. */
  lemma PhaseMonotone(db: Rows, receipts: map<Key, Entry>, c: nat, p: Proc, q: Proc)
    requires PhaseOK(db, receipts, c, p) && Resolving(p.phase) && !p.at.Looking?
    requires q.pick.assignment == p.pick.assignment && q.pick.service == p.pick.service
    requires q.key == p.key && q.authority == p.authority && q.phase == p.phase && p.locks <= q.locks
    ensures PhaseOK(db, receipts, c, q)
  {
    if p.phase.Rechecking? {
      PassMonotone(db, p.locks, q.locks, Resolved, p.phase.read.first);
    }
  }

  lemma NameKeeps(s: Sys, c: nat, schema: Option<nat>)
    requires Inv(s) && Enabled(s, Name(c, schema))
    ensures Inv(Do(s, Name(c, schema)))
  {
    var p := s.procs[c];
    var q := p.(at := WantSchema, pick := p.pick.(schema := schema));
    NotYet(s, c);
    OwnLocks(s, c);
    assert ProcOK(s.db, s.receipts, c, p);
    PhaseMonotone(s.db, s.receipts, c, p, q);
    MoveKeeps(s, c, q);
  }

  lemma PassStepKeeps(s: Sys, c: nat)
    requires Inv(s) && Enabled(s, Pass(c))
    ensures Inv(Do(s, Pass(c)))
  {
    var p := s.procs[c];
    NotYet(s, c);
    OwnLocks(s, c);
    PassKeeps(s.db, p);
    PhaseMonotone(s.db, s.receipts, c, p, PassAfter(s.db, p));
    MoveKeeps(s, c, PassAfter(s.db, p));
  }

  lemma ReserveKeeps(s: Sys, c: nat)
    requires Inv(s) && Enabled(s, Reserve(c))
    ensures Inv(Do(s, Reserve(c)))
  {
    NotYet(s, c);
    OwnLocks(s, c);
    MoveKeeps(s, c, s.procs[c].(phase := Inserting(ReceiptFor(s.db, s.procs[c]))));
  }

  lemma RedeliverKeeps(s: Sys, c: nat, again: Authority)
    requires Inv(s) && Enabled(s, Redeliver(c, again))
    ensures Inv(Do(s, Redeliver(c, again)))
  {
    NotYet(s, c);
    OwnLocks(s, c);
    MoveKeeps(s, c, s.procs[c].(authority := again, phase := Delivering(s.procs[c].phase.held)));
  }

  lemma ClosesJob(s: Sys, c: nat)
    requires Inv(s) && Enabled(s, Close(c))
    ensures ProcOK(s.db, s.receipts, c, Closed(s.db, s.procs[c]))
  {
    assert ProcOK(s.db, s.receipts, c, s.procs[c]);
    ClosedIsOK(s.db, s.receipts, c, s.procs[c]);
  }

  lemma ClosedIsOK(db: Rows, receipts: map<Key, Entry>, c: nat, p: Proc)
    requires ProcOK(db, receipts, c, p) && p.phase.Rechecking? && Confirmed(db, p)
    requires VersionAt(db, p.pick, p.authority) == Some(p.phase.read.version)
    ensures ProcOK(db, receipts, c, Closed(db, p))
  {
    BaseIdentifies(db, p.locks, p.pick, p.authority.identity);
    assert CloseOK(db, p.locks, p.phase.read, p.pick, p.checked);
    assert CloseSeen(p.phase.read, p.pick, db);
  }

  lemma CloseKeeps(s: Sys, c: nat)
    requires Inv(s) && Enabled(s, Close(c))
    ensures Inv(Do(s, Close(c)))
  {
    OwnLocks(s, c);
    ClosesJob(s, c);
    MoveKeeps(s, c, Closed(s.db, s.procs[c]));
  }

  lemma AuditNumberKeeps(s: Sys, n: nat)
    requires Inv(s)
    ensures Inv(s.(nextAudit := n))
  {
    var s' := s.(nextAudit := n);
    assert forall i :: 0 <= i < |s.readLog| ==> ReadOK(s, s.readLog[i]) && ReadOK(s', s.readLog[i]);
  }

  lemma AdmitsJob(s: Sys, c: nat)
    requires Inv(s) && Enabled(s, Admit(c))
    ensures var p := s.procs[c];
            ProcOK(s.db, s.receipts, c, p.(phase := Reading(Admitted(s.db, p, s.nextAudit))))
  {
    assert ProcOK(s.db, s.receipts, c, s.procs[c]);
    AdmittedIsOK(s.db, s.receipts, c, s.procs[c], s.nextAudit);
  }

  lemma AdmittedIsOK(db: Rows, receipts: map<Key, Entry>, c: nat, p: Proc, audit: nat)
    requires ProcOK(db, receipts, c, p) && p.phase.Delivering? && Confirmed(db, p)
    requires ReceiptFor(db, p) == p.phase.due
    ensures ProcOK(db, receipts, c, p.(phase := Reading(Admitted(db, p, audit))))
  {
    BaseIdentifies(db, p.locks, p.pick, p.authority.identity);
    assert JobSeen(Admitted(db, p, audit));
  }

  lemma AdmitMoves(s: Sys, c: nat)
    requires Inv(s) && Enabled(s, Admit(c))
    ensures var p := s.procs[c]; Inv(Put(s, c, p.(phase := Reading(Admitted(s.db, p, s.nextAudit)))))
  {
    var p := s.procs[c];
    NotYet(s, c);
    OwnLocks(s, c);
    AdmitsJob(s, c);
    MoveKeeps(s, c, p.(phase := Reading(Admitted(s.db, p, s.nextAudit))));
  }

  lemma AdmitKeeps(s: Sys, c: nat)
    requires Inv(s) && Enabled(s, Admit(c))
    ensures Inv(Do(s, Admit(c)))
  {
    var p := s.procs[c];
    AdmitMoves(s, c);
    AuditNumberKeeps(Put(s, c, p.(phase := Reading(Admitted(s.db, p, s.nextAudit)))), s.nextAudit + 1);
  }

  lemma ReadKeeps(s: Sys, c: nat)
    requires Inv(s) && Enabled(s, ReadMaterial(c))
    ensures Inv(Do(s, ReadMaterial(c)))
  {
    var p := s.procs[c];
    var p' := p.(phase := Rechecking(p.phase.job), at := Looking, pick := NOTHING);
    var e := ReadEvent(p.key, c, p.phase.job.version);
    NotYet(s, c);
    OwnLocks(s, c);
    assert ProcOK(s.db, s.receipts, c, p) && ProcOK(s.db, s.receipts, c, p');
    MoveKeeps(s, c, p');
    ReadLogged(s, Put(s, c, p'), e, c);
  }

  /** The new entry is the first under its key: the key's receipt is the caller's, who had not read before. */
  lemma ReadLogged(s: Sys, s1: Sys, e: ReadEvent, c: nat)
    requires Inv(s1) && s1.readLog == s.readLog && s1.receipts == s.receipts && ReadOK(s1, e) && e.caller == c
    requires forall i :: 0 <= i < |s.readLog| ==> s.readLog[i].caller != c
    ensures Inv(s1.(readLog := s.readLog + [e]))
  {
    var s' := s1.(readLog := s.readLog + [e]);
    forall i | 0 <= i < |s'.readLog|
      ensures ReadOK(s', s'.readLog[i]) && (i < |s.readLog| ==> s'.readLog[i].key != e.key)
    {
      if i < |s.readLog| {
        assert ReadOK(s1, s.readLog[i]);
      }
    }
  }

  // ------------------------------------------------------------------
  // Receipts, audits and deliveries
  // ------------------------------------------------------------------

  /** The inserting call ends with its index entry as a durable receipt. */
  ghost predicate Recording(s: Sys, c: nat, phase: Phase) {
    c in s.procs && s.procs[c].phase.Inserting? && (phase.Refused? || phase == Spent(s.procs[c].phase.draft))
  }

  lemma RecordProcs(s: Sys, c: nat, phase: Phase)
    requires ProcsOK(s) && Exclusive(s) && Recording(s, c, phase)
    ensures ProcsOK(Put(Record(s, c), c, Ended(s.procs[c], phase)))
  {
    var s' := Put(Record(s, c), c, Ended(s.procs[c], phase));
    forall d | d in s'.procs
      ensures ProcOK(s'.db, s'.receipts, d, s'.procs[d])
    {
      if d != c {
        assert ProcOK(s.db, s.receipts, d, s.procs[d]) && ProcOK(s.db, s.receipts, c, s.procs[c]);
      }
    }
  }

  lemma RecordReads(s: Sys, c: nat, phase: Phase)
    requires Inv(s) && Recording(s, c, phase)
    ensures ReadsOK(Put(Record(s, c), c, Ended(s.procs[c], phase)))
  {
    var s' := Put(Record(s, c), c, Ended(s.procs[c], phase));
    NotYet(s, c);
    assert ProcOK(s.db, s.receipts, c, s.procs[c]);
    assert forall i :: 0 <= i < |s.readLog| ==> ReadOK(s, s.readLog[i]) && ReadOK(s', s.readLog[i]);
  }

  lemma RecordDeliveries(s: Sys, c: nat, phase: Phase)
    requires Inv(s) && Recording(s, c, phase)
    ensures DeliveriesOK(Put(Record(s, c), c, Ended(s.procs[c], phase)))
  {
    var s' := Put(Record(s, c), c, Ended(s.procs[c], phase));
    assert ProcOK(s.db, s.receipts, c, s.procs[c]);
    forall i | 0 <= i < |s.deliveries|
      ensures DeliveredOK(s'.receipts, s'.successes, s'.deliveries[i])
    {
      assert DeliveredOK(s.receipts, s.successes, s.deliveries[i]);
    }
  }

  lemma RecordKeeps(s: Sys, c: nat, phase: Phase)
    requires Inv(s) && Recording(s, c, phase)
    ensures Inv(Put(Record(s, c), c, Ended(s.procs[c], phase)))
  {
    RecordProcs(s, c, phase);
    RecordReads(s, c, phase);
    RecordDeliveries(s, c, phase);
    var s' := Put(Record(s, c), c, Ended(s.procs[c], phase));
    assert Exclusive(s');
    assert ReceiptsOK(s');
  }

  lemma SuccessKeeps(s: Sys, audit: nat)
    requires Inv(s)
    ensures Inv(s.(successes := s.successes + {audit}))
  {
    var s' := s.(successes := s.successes + {audit});
    assert forall i :: 0 <= i < |s.readLog| ==> ReadOK(s, s.readLog[i]) && ReadOK(s', s.readLog[i]);
    forall i | 0 <= i < |s.deliveries|
      ensures DeliveredOK(s'.receipts, s'.successes, s'.deliveries[i])
    {
      assert DeliveredOK(s.receipts, s.successes, s.deliveries[i]);
    }
  }

  /** What the two finished resolutions of a closing delivery say about its rows. */
  lemma ClosingDelivers(s: Sys, c: nat, successes: set<nat>)
    requires ProcsOK(s) && c in s.procs && s.procs[c].phase.Closing? && s.procs[c].phase.closed.audit in successes
    ensures DeliveredOK(s.receipts, successes, Outcome(s.db, c, s.procs[c]))
  {
    assert ProcOK(s.db, s.receipts, c, s.procs[c]);
    OutcomeIsOK(s.db, s.receipts, c, s.procs[c]);
  }

  lemma OutcomeIsOK(db: Rows, receipts: map<Key, Entry>, c: nat, p: Proc)
    requires PhaseOK(db, receipts, c, p) && p.phase.Closing?
    ensures CheckedTwice(Outcome(db, c, p)) && HoldsAtCommit(Outcome(db, c, p))
  {
    BaseIdentifies(db, p.locks, p.phase.after, p.phase.closed.again.identity);
  }

  lemma DeliveriesAppend(s: Sys, d: Delivered)
    requires DeliveriesOK(s) && DeliveredOK(s.receipts, s.successes, d)
    requires d.caller in s.procs && s.procs[d.caller].phase.Returned? && s.procs[d.caller].key == d.key
    requires forall i :: 0 <= i < |s.deliveries| ==> s.deliveries[i].key != d.key
    ensures DeliveriesOK(s.(deliveries := s.deliveries + [d]))
  {
  }

  lemma DeliveryLogged(s: Sys, d: Delivered)
    requires Inv(s) && DeliveredOK(s.receipts, s.successes, d)
    requires d.caller in s.procs && s.procs[d.caller].phase.Returned? && s.procs[d.caller].key == d.key
    requires forall i :: 0 <= i < |s.deliveries| ==> s.deliveries[i].key != d.key
    ensures Inv(s.(deliveries := s.deliveries + [d]))
  {
    var s' := s.(deliveries := s.deliveries + [d]);
    assert forall i :: 0 <= i < |s.readLog| ==> ReadOK(s, s.readLog[i]) && ReadOK(s', s.readLog[i]);
    DeliveriesAppend(s, d);
  }

  lemma FirstUnderItsKey(s: Sys, c: nat)
    requires Inv(s) && c in s.procs && s.procs[c].phase.Closing?
    ensures forall i :: 0 <= i < |s.deliveries| ==> s.deliveries[i].key != s.procs[c].key
  {
    assert ProcOK(s.db, s.receipts, c, s.procs[c]);
    forall i | 0 <= i < |s.deliveries|
      ensures s.deliveries[i].key != s.procs[c].key
    {
      assert DeliveredOK(s.receipts, s.successes, s.deliveries[i]);
    }
  }

  lemma DeliverKeeps(s: Sys, c: nat)
    requires Inv(s) && Enabled(s, CommitDelivery(c))
    ensures Inv(Do(s, CommitDelivery(c)))
  {
    var p := s.procs[c];
    var j := p.phase.closed;
    assert ProcOK(s.db, s.receipts, c, p);
    var s2 := Put(s, c, Ended(p, Returned)).(successes := s.successes + {j.audit});
    ReturnKeeps(s, c);
    ClosingDelivers(s, c, s2.successes);
    FirstUnderItsKey(s, c);
    DeliveryLogged(s2, Outcome(s.db, c, p));
  }

  lemma ReturnKeeps(s: Sys, c: nat)
    requires Inv(s) && Enabled(s, CommitDelivery(c))
    ensures var p := s.procs[c];
            Inv(Put(s, c, Ended(p, Returned)).(successes := s.successes + {p.phase.closed.audit}))
  {
    assert ProcOK(s.db, s.receipts, c, s.procs[c]);
    MoveKeeps(s, c, Ended(s.procs[c], Returned));
    SuccessKeeps(Put(s, c, Ended(s.procs[c], Returned)), s.procs[c].phase.closed.audit);
  }

  /** Rows change only while no call has them locked, so nothing a call pinned down changes. */
  lemma WriteProc(s: Sys, changes: map<L.RowId, Option<Data>>, c: nat)
    requires ProcsOK(s) && Unique(s.db) && Enabled(s, Write(changes)) && c in s.procs
    ensures ProcOK(Written(s.db, changes), s.receipts, c, s.procs[c])
  {
    assert ProcOK(s.db, s.receipts, c, s.procs[c]);
    assert Agree(s.db, Written(s.db, changes), s.procs[c].locks);
    ProcStable(s.db, Written(s.db, changes), s.receipts, c, s.procs[c]);
  }

  lemma ProcStable(db: Rows, db': Rows, receipts: map<Key, Entry>, c: nat, p: Proc)
    requires ProcOK(db, receipts, c, p) && Agree(db, db', p.locks) && Unique(db)
    ensures ProcOK(db', receipts, c, p)
  {
    PassStable(db, db', p.locks, p.at, p.pick);
    if p.at.Resolved? {
      RightStable(db, db', p.locks, p.pick, p.authority.want, p.checked);
    }
    match p.phase
    case Reading(j) => JobStable(db, db', receipts, c, p, j);
    case Rechecking(j) => JobStable(db, db', receipts, c, p, j);
    case Closing(j, after, rechecked, _) =>
      JobStable(db, db', receipts, c, p, j);
      CloseStable(db, db', p.locks, j, after, rechecked);
    case _ =>
  }

  lemma CloseStable(db: Rows, db': Rows, locks: set<L.RowId>, j: Job, after: Pick, rechecked: Rows)
    requires CloseOK(db, locks, j, after, rechecked) && Agree(db, db', locks) && Unique(db)
    ensures CloseOK(db', locks, j, after, rechecked)
  {
    RightStable(db, db', locks, after, j.again.want, rechecked);
    PassStable(db, db', locks, Resolved, after);
    ResolvedStable(db, db', locks, after, j.again);
  }

  lemma JobStable(db: Rows, db': Rows, receipts: map<Key, Entry>, c: nat, p: Proc, j: Job)
    requires JobOK(db, receipts, c, p, j) && Agree(db, db', p.locks)
    ensures JobOK(db', receipts, c, p, j)
  {
    PassStable(db, db', p.locks, Resolved, j.first);
    ResolvedStable(db, db', p.locks, j.first, j.again);
    RowStable(db, db', p.locks, j.first, j.again.want);
  }

  lemma WriteKeeps(s: Sys, changes: map<L.RowId, Option<Data>>)
    requires Inv(s) && Enabled(s, Write(changes))
    ensures Inv(Do(s, Write(changes)))
  {
    var s' := Do(s, Write(changes));
    forall c | c in s.procs
      ensures ProcOK(s'.db, s'.receipts, c, s'.procs[c])
    {
      WriteProc(s, changes, c);
    }
    assert forall i :: 0 <= i < |s.readLog| ==> ReadOK(s, s.readLog[i]) && ReadOK(s', s.readLog[i]);
  }

  lemma LoseReceiptKeeps(s: Sys, c: nat, applied: bool)
    requires Inv(s) && Enabled(s, LoseReceipt(c, applied))
    ensures Inv(Do(s, LoseReceipt(c, applied)))
  {
    if applied {
      RecordKeeps(s, c, Refused);
    } else {
      EndKeeps(s, c);
    }
  }

  lemma LoseDeliveryKeeps(s: Sys, c: nat, applied: bool)
    requires Inv(s) && Enabled(s, LoseDelivery(c, applied))
    ensures Inv(Do(s, LoseDelivery(c, applied)))
  {
    EndKeeps(s, c);
    SuccessKeeps(Put(s, c, Ended(s.procs[c], Refused)), s.procs[c].phase.closed.audit);
  }

  lemma ResolutionKeeps(s: Sys, act: Action)
    requires Inv(s) && Enabled(s, act)
    requires act.Start? || act.Look? || act.Pass? || act.Name? || act.Reserve? || act.Redeliver?
    ensures Inv(Do(s, act))
  {
    match act
    case Start(c, a) => StartKeeps(s, c, a);
    case Look(c, a) => LookKeeps(s, c, a);
    case Pass(c) => PassStepKeeps(s, c);
    case Name(c, schema) => NameKeeps(s, c, schema);
    case Reserve(c) => ReserveKeeps(s, c);
    case Redeliver(c, again) => RedeliverKeeps(s, c, again);
  }

  lemma DeliveryKeeps(s: Sys, act: Action)
    requires Inv(s) && Enabled(s, act)
    requires act.Admit? || act.ReadMaterial? || act.Close? || act.CommitDelivery? || act.LoseDelivery?
    ensures Inv(Do(s, act))
  {
    match act
    case Admit(c) => AdmitKeeps(s, c);
    case ReadMaterial(c) => ReadKeeps(s, c);
    case Close(c) => CloseKeeps(s, c);
    case CommitDelivery(c) => DeliverKeeps(s, c);
    case LoseDelivery(c, applied) => LoseDeliveryKeeps(s, c, applied);
  }

  lemma ReceiptKeeps(s: Sys, act: Action)
    requires Inv(s) && Enabled(s, act) && (act.CommitReceipt? || act.LoseReceipt? || act.Refuse?)
    ensures Inv(Do(s, act))
  {
    match act
    case CommitReceipt(c) => RecordKeeps(s, c, Spent(s.procs[c].phase.draft));
    case LoseReceipt(c, applied) => LoseReceiptKeeps(s, c, applied);
    case Refuse(c) => EndKeeps(s, c);
  }

  /** Every step of every call, and every committed change of any rows, keeps the invariant. */
  lemma InvDo(s: Sys, act: Action)
    requires Inv(s) && Enabled(s, act)
    ensures Inv(Do(s, act))
  {
    if act.Write? {
      WriteKeeps(s, act.changes);
    } else if act.CommitReceipt? || act.LoseReceipt? || act.Refuse? {
      ReceiptKeeps(s, act);
    } else if act.Admit? || act.ReadMaterial? || act.Close? || act.CommitDelivery? || act.LoseDelivery? {
      DeliveryKeeps(s, act);
    } else {
      ResolutionKeeps(s, act);
    }
  }

  lemma {:induction false} InvRun(s: Sys, run: seq<Action>)
    requires Inv(s) && Legal(s, run)
    ensures Inv(After(s, run))
    decreases |run|
  {
    if run != [] {
      InvDo(s, run[0]);
      InvRun(Do(s, run[0]), run[1..]);
    }
  }

  // ------------------------------------------------------------------
  // Theorems
  // ------------------------------------------------------------------

  /** Before any call: rows only. */
  predicate Start0(s: Sys) {
    s.procs == map[] && s.receipts == map[] && s.readLog == [] && s.deliveries == [] && Unique(s.db)
  }

  /** Over every run, each dispatch key is read at most once and delivered at most once, by the same call. */
  lemma AtMostOnce(s: Sys, run: seq<Action>)
    requires Start0(s) && Legal(s, run)
    ensures var s' := After(s, run);
            && (forall i, j :: 0 <= i < j < |s'.readLog| ==> s'.readLog[i].key != s'.readLog[j].key)
            && (forall i, j :: 0 <= i < j < |s'.deliveries| ==> s'.deliveries[i].key != s'.deliveries[j].key)
            && (forall i, j :: 0 <= i < |s'.readLog| && 0 <= j < |s'.deliveries| ==>
                  s'.readLog[i].key == s'.deliveries[j].key ==>
                  && s'.readLog[i].caller == s'.deliveries[j].caller
                  && s'.readLog[i].version == s'.deliveries[j].job.version)
  {
    InvRun(s, run);
    var s' := After(s, run);
    forall i, j | 0 <= i < |s'.readLog| && 0 <= j < |s'.deliveries| && s'.readLog[i].key == s'.deliveries[j].key
      ensures s'.readLog[i].caller == s'.deliveries[j].caller && s'.readLog[i].version == s'.deliveries[j].job.version
    {
      assert ReadOK(s', s'.readLog[i]) && DeliveredOK(s'.receipts, s'.successes, s'.deliveries[j]);
    }
  }

  /** Whenever a bundle was returned, everything it promises held of the shared rows when it was checked. */
  lemma DeliveredConsistently(s: Sys, run: seq<Action>, i: nat)
    requires Start0(s) && Legal(s, run) && i < |After(s, run).deliveries|
    ensures DeliveredOK(After(s, run).receipts, After(s, run).successes, After(s, run).deliveries[i])
  {
    InvRun(s, run);
  }

  /** The receipt under the key is another call's. */
  predicate Shut(s: Sys, c: nat, k: Key) {
    k in s.receipts && s.receipts[k].caller != c
  }

  lemma ShutStep(s: Sys, act: Action, c: nat, k: Key)
    requires Inv(s) && Enabled(s, act) && Shut(s, c, k)
    ensures Shut(Do(s, act), c, k)
  {
    if act.CommitReceipt? || act.LoseReceipt? {
      assert ProcOK(s.db, s.receipts, act.c, s.procs[act.c]);
    } else {
      ReceiptsStay(s, act);
    }
  }

  lemma ReceiptsStay(s: Sys, act: Action)
    requires Enabled(s, act) && !act.CommitReceipt? && !act.LoseReceipt?
    ensures Do(s, act).receipts == s.receipts
  {
  }

  /** Once a receipt has committed, no other call ever reads or returns under its key, even if the first one failed. */
  lemma {:induction false} SpentForever(s: Sys, run: seq<Action>, c: nat, k: Key)
    requires Inv(s) && Legal(s, run) && Shut(s, c, k)
    ensures var s' := After(s, run);
            && Shut(s', c, k)
            && (forall i :: 0 <= i < |s'.readLog| && s'.readLog[i].key == k ==> s'.readLog[i].caller != c)
            && (forall i :: 0 <= i < |s'.deliveries| && s'.deliveries[i].key == k ==> s'.deliveries[i].caller != c)
    decreases |run|
  {
    if run != [] {
      ShutStep(s, run[0], c, k);
      InvDo(s, run[0]);
      SpentForever(Do(s, run[0]), run[1..], c, k);
    } else {
      assert forall i :: 0 <= i < |s.readLog| ==> ReadOK(s, s.readLog[i]);
      assert forall i :: 0 <= i < |s.deliveries| ==> DeliveredOK(s.receipts, s.successes, s.deliveries[i]);
    }
  }

  /** A delivery is not closed over another identity or another version than the one it read. */
  lemma CloseChecks(s: Sys, c: nat)
    requires Enabled(s, Close(c))
    ensures var p := s.procs[c];
            && Identified(s.db, p.pick, p.authority.identity) && IsCredential(s.db, p.pick.credential)
            && s.db[CredentialId(p.pick.credential)].live == Some(p.phase.read.version)
  {
  }

  /**
   * Once the second identity comparison has passed, the version is the one that
   * was read: both resolutions locked the same credential, so the last version
   * check of a delivery never decides.
   */
  lemma FinalVersionNeverDecides(s: Sys, run: seq<Action>, c: nat)
    requires Start0(s) && Legal(s, run) && c in After(s, run).procs && After(s, run).procs[c].phase.Rechecking?
    requires Confirmed(After(s, run).db, After(s, run).procs[c])
    ensures var s', p := After(s, run), After(s, run).procs[c];
            VersionAt(s'.db, p.pick, p.authority) == Some(p.phase.read.version) && Enabled(s', Close(c))
  {
    InvRun(s, run);
    var s' := After(s, run);
    assert ProcOK(s'.db, s'.receipts, c, s'.procs[c]);
  }

  /** A call whose answer was lost: refused for good, with what it had logged by then. */
  ghost predicate Dead(s: Sys, c: nat, mayRead: bool) {
    && c in s.procs && s.procs[c].phase.Refused?
    && (!mayRead ==> forall i :: 0 <= i < |s.readLog| ==> s.readLog[i].caller != c)
    && (forall i :: 0 <= i < |s.deliveries| ==> s.deliveries[i].caller != c)
  }

  lemma {:induction false} DeadForever(s: Sys, rest: seq<Action>, c: nat, mayRead: bool)
    requires Legal(s, rest) && Dead(s, c, mayRead)
    ensures Dead(After(s, rest), c, mayRead)
    decreases |rest|
  {
    if rest != [] {
      DeadStep(s, rest[0], c, mayRead);
      DeadForever(Do(s, rest[0]), rest[1..], c, mayRead);
    }
  }

  lemma DeadStep(s: Sys, act: Action, c: nat, mayRead: bool)
    requires Enabled(s, act) && Dead(s, c, mayRead)
    ensures Dead(Do(s, act), c, mayRead)
  {
  }

  /**
   * The answer to the receipt's insert was lost: the call returns nothing and
   * never reads. If the insert was applied, the dispatch key is spent: no call
   * reads or returns under it, ever.
   */
  lemma LostReceiptIsSpent(s: Sys, run: seq<Action>, c: nat, applied: bool, rest: seq<Action>)
    requires Start0(s) && Legal(s, run) && Enabled(After(s, run), LoseReceipt(c, applied))
    requires Legal(Do(After(s, run), LoseReceipt(c, applied)), rest)
    ensures var k, s' := After(s, run).procs[c].key, After(Do(After(s, run), LoseReceipt(c, applied)), rest);
            && (forall i :: 0 <= i < |s'.readLog| ==> s'.readLog[i].caller != c)
            && (forall i :: 0 <= i < |s'.deliveries| ==> s'.deliveries[i].caller != c)
            && (applied ==>
                  && k in s'.receipts && (forall i :: 0 <= i < |s'.readLog| ==> s'.readLog[i].key != k)
                  && (forall i :: 0 <= i < |s'.deliveries| ==> s'.deliveries[i].key != k))
  {
    InvRun(s, run);
    var s0, lose := After(s, run), LoseReceipt(c, applied);
    var k, s1 := s0.procs[c].key, Do(s0, lose);
    InvDo(s0, lose);
    NotYet(s0, c);
    InsertingIsSilent(s0, c);
    DeadForever(s1, rest, c, false);
    if applied {
      OnlyOwnerActs(s1, rest, c, k);
    }
  }

  lemma InsertingIsSilent(s: Sys, c: nat)
    requires Inv(s) && c in s.procs && s.procs[c].phase.Inserting?
    ensures forall i :: 0 <= i < |s.deliveries| ==> s.deliveries[i].caller != c
  {
  }

  /** Under a spent key only the call that inserted the receipt appears in the logs. */
  lemma OnlyOwnerActs(s: Sys, rest: seq<Action>, c: nat, k: Key)
    requires Inv(s) && Legal(s, rest) && k in s.receipts && s.receipts[k].caller == c
    ensures var s' := After(s, rest);
            && k in s'.receipts
            && (forall i :: 0 <= i < |s'.readLog| && s'.readLog[i].key == k ==> s'.readLog[i].caller == c)
            && (forall i :: 0 <= i < |s'.deliveries| && s'.deliveries[i].key == k ==> s'.deliveries[i].caller == c)
  {
    var s' := After(s, rest);
    SpentForever(s, rest, c + 1, k);
    forall i | 0 <= i < |s'.readLog| && s'.readLog[i].key == k
      ensures s'.readLog[i].caller == c
    {
      if s'.readLog[i].caller != c {
        SpentForever(s, rest, s'.readLog[i].caller, k);
      }
    }
    forall i | 0 <= i < |s'.deliveries| && s'.deliveries[i].key == k
      ensures s'.deliveries[i].caller == c
    {
      if s'.deliveries[i].caller != c {
        SpentForever(s, rest, s'.deliveries[i].caller, k);
      }
    }
  }

  /**
   * The answer to the delivery's commit was lost: the call never returns a
   * bundle, although it has read, and its success audit stands if the commit was
   * applied.
   */
  lemma LostDeliveryIsAudited(s: Sys, run: seq<Action>, c: nat, applied: bool, rest: seq<Action>)
    requires Start0(s) && Legal(s, run) && Enabled(After(s, run), LoseDelivery(c, applied))
    requires Legal(Do(After(s, run), LoseDelivery(c, applied)), rest)
    ensures var s0, s' := After(s, run), After(Do(After(s, run), LoseDelivery(c, applied)), rest);
            && (forall i :: 0 <= i < |s'.deliveries| ==> s'.deliveries[i].caller != c)
            && (applied ==> s0.procs[c].phase.closed.audit in s'.successes)
  {
    InvRun(s, run);
    var s0, lose := After(s, run), LoseDelivery(c, applied);
    DeadForever(Do(s0, lose), rest, c, true);
    SuccessesGrow(Do(s0, lose), rest);
  }

  lemma {:induction false} SuccessesGrow(s: Sys, rest: seq<Action>)
    requires Legal(s, rest)
    ensures s.successes <= After(s, rest).successes
    decreases |rest|
  {
    if rest != [] {
      SuccessesGrow(Do(s, rest[0]), rest[1..]);
    }
  }

  /** A call that starts after the receipt committed is refused at its insert. */
  lemma LateCallRefused(s: Sys, run: seq<Action>, rest: seq<Action>, c: nat, k: Key)
    requires Start0(s) && Legal(s, run) && k in After(s, run).receipts && c !in After(s, run).procs
    requires Legal(After(s, run), rest)
    ensures var s' := After(After(s, run), rest);
            && (forall i :: 0 <= i < |s'.readLog| && s'.readLog[i].key == k ==> s'.readLog[i].caller != c)
            && (forall i :: 0 <= i < |s'.deliveries| && s'.deliveries[i].key == k ==> s'.deliveries[i].caller != c)
            && (c in s'.procs && s'.procs[c].key == k ==> !Enabled(s', Reserve(c)))
  {
    InvRun(s, run);
    SpentForever(After(s, run), rest, c, k);
  }

  // ------------------------------------------------------------------
  // The protocol does deliver
  // ------------------------------------------------------------------

  lemma RunCons(s: Sys, act: Action, rest: seq<Action>)
    requires Enabled(s, act) && Legal(Do(s, act), rest)
    ensures Legal(s, [act] + rest) && After(s, [act] + rest) == After(Do(s, act), rest)
  {
    assert ([act] + rest)[1..] == rest;
  }

  lemma {:induction false} RunConcat(s: Sys, a: seq<Action>, b: seq<Action>)
    requires Legal(s, a) && Legal(After(s, a), b)
    ensures Legal(s, a + b) && After(s, a + b) == After(After(s, a), b)
    decreases |a|
  {
    if a == [] {
      assert a + b == b;
    } else {
      RunConcat(Do(s, a[0]), a[1..], b);
      assert (a + b)[0] == a[0] && (a + b)[1..] == a[1..] + b;
    }
  }

  predicate OnlyMatch(db: Rows, w: L.Want, x: nat) {
    Matches(db, w, x) && forall r :: r in db && r.kind == L.Assignment && Matches(db, w, r.pk) ==> r.pk == x
  }

  /** The choice a resolution of this assignment comes to. */
  function Choice(db: Rows, x: nat): Pick
    requires AssignmentId(x) in db && db[AssignmentId(x)].AssignmentRow?
    requires IsCredential(db, db[AssignmentId(x)].credential)
  {
    var row := db[AssignmentId(x)];
    var k := db[CredentialId(row.credential)];
    Pick(x, row.service, row.credential, k.policy, k.engine, None)
  }

  /** The reference selects exactly this assignment, and the rows behind it are consistent. */
  ghost predicate Sound(db: Rows, a: Authority, x: nat) {
    && OnlyMatch(db, a.want, x) && IsCredential(db, db[AssignmentId(x)].credential)
    && (var k := db[CredentialId(db[AssignmentId(x)].credential)];
        && PolicyId(k.policy) in db && db[PolicyId(k.policy)].PolicyRow?
        && EngineId(k.engine) in db && db[EngineId(k.engine)].EngineRow?
        && Resolves(db, k.slug))
    && VersionAt(db, Choice(db, x), a).Some?
  }

  /** Sound, and as the authorization froze it. */
  ghost predicate Ready(db: Rows, a: Authority, x: nat) {
    Sound(db, a, x) && Identified(db, Choice(db, x), a.identity)
  }

  /** The live version behind the assignment. */
  function LiveAt(db: Rows, x: nat): Option<nat>
    requires AssignmentId(x) in db && db[AssignmentId(x)].AssignmentRow?
    requires IsCredential(db, db[AssignmentId(x)].credential)
  {
    db[CredentialId(db[AssignmentId(x)].credential)].live
  }

  /** The resolution is under way to that choice, whatever service it went by. */
  ghost predicate OnWay(db: Rows, p: Proc, x: nat) {
    && Sound(db, p.authority, x) && Resolving(p.phase) && !p.at.Looking?
    && (var choice := Choice(db, x).(service := p.pick.service, schema := p.pick.schema);
        if Order(p.at) > 2 then p.pick == choice else p.pick == choice.(policy := 0, engine := 0))
    && (p.pick.service.Some? ==> ServiceId(p.pick.service.value) in db)
    && (p.pick.schema.Some? ==> SchemaId(p.pick.schema.value) in db && db[SchemaId(p.pick.schema.value)].SchemaRow?)
  }

  /** The service, assignment and schema among the rows are those of the pick. */
  predicate FromPick(rows: set<L.RowId>, pick: Pick) {
    forall r :: r in rows ==>
      && (r.kind == L.Service ==> pick.service == Some(r.pk)) && (r.kind == L.Assignment ==> r.pk == pick.assignment)
      && (r.kind == L.Schema ==> pick.schema == Some(r.pk))
  }

  /** The same call further on in the same resolution. */
  ghost predicate Onward(p: Proc, q: Proc) {
    && q.key == p.key && q.authority == p.authority && q.phase == p.phase && p.locks <= q.locks
    && q.pick.service == p.pick.service && q.pick.assignment == p.pick.assignment
    && (Order(p.at) > 7 ==> q.pick == p.pick)
    && (Order(q.at) <= 8 ==> forall r :: r in q.locks - p.locks ==> r.kind != L.Schema)
    && FromPick(q.locks - p.locks, q.pick)
  }

  /** One call alone over the rows. */
  function Alone(s: Sys, c: nat, p: Proc): Sys {
    s.(procs := map[c := p])
  }

  /** The next step of a resolution under way. */
  lemma WayStep(db: Rows, p: Proc, x: nat) returns (q: Proc)
    requires OnWay(db, p, x) && !p.at.Resolved?
    ensures !p.at.Naming? ==> Passes(db, p.at, p.pick, p.authority) && q == PassAfter(db, p)
    ensures p.at.Naming? ==>
              && LooksUp(db, SlugAt(db, p.pick), q.pick.schema)
              && q == p.(at := WantSchema, pick := p.pick.(schema := q.pick.schema))
    ensures OnWay(db, q, x) && Order(q.at) == Order(p.at) + 1 && Onward(p, q)
  {
    if p.at.Naming? {
      var slug := SlugAt(db, p.pick);
      if slug.None? {
        q := p.(at := WantSchema, pick := p.pick.(schema := None));
      } else {
        var r :| r in db && Named(db, r, slug.value);
        assert r == SchemaId(r.pk);
        q := p.(at := WantSchema, pick := p.pick.(schema := Some(r.pk)));
      }
    } else {
      q := PassAfter(db, p);
    }
  }

  lemma StepOnWay(s: Sys, c: nat, p: Proc, x: nat) returns (act: Action, q: Proc)
    requires OnWay(s.db, p, x) && !p.at.Resolved?
    ensures Enabled(Alone(s, c, p), act) && Do(Alone(s, c, p), act) == Alone(s, c, q)
    ensures OnWay(s.db, q, x) && Order(q.at) == Order(p.at) + 1 && Onward(p, q)
    ensures p.at.Naming? ==> LooksUp(s.db, SlugAt(s.db, p.pick), q.pick.schema)
  {
    q := WayStep(s.db, p, x);
    if p.at.Naming? {
      act := Name(c, q.pick.schema);
      NameAlone(s, c, p, q.pick.schema);
    } else {
      act := Pass(c);
      PassAlone(s, c, p);
    }
  }

  lemma NameAlone(s: Sys, c: nat, p: Proc, schema: Option<nat>)
    requires Resolving(p.phase) && p.at.Naming? && LooksUp(s.db, SlugAt(s.db, p.pick), schema)
    ensures Enabled(Alone(s, c, p), Name(c, schema))
    ensures Do(Alone(s, c, p), Name(c, schema))
         == Alone(s, c, p.(at := WantSchema, pick := p.pick.(schema := schema)))
  {
  }

  lemma PassAlone(s: Sys, c: nat, p: Proc)
    requires Resolving(p.phase) && !p.at.Looking? && !p.at.Resolved? && Passes(s.db, p.at, p.pick, p.authority)
    ensures Enabled(Alone(s, c, p), Pass(c))
    ensures Do(Alone(s, c, p), Pass(c)) == Alone(s, c, PassAfter(s.db, p))
  {
  }

  lemma OnwardOn(p: Proc, q: Proc, o: Proc)
    requires Onward(p, q) && Onward(q, o) && Order(p.at) <= Order(q.at) <= Order(o.at)
    ensures Onward(p, o)
  {
  }

  lemma {:induction false} Advance(s: Sys, c: nat, p: Proc, x: nat, order: nat) returns (run: seq<Action>, q: Proc)
    requires OnWay(s.db, p, x) && Order(p.at) <= order <= 10
    ensures Legal(Alone(s, c, p), run) && After(Alone(s, c, p), run) == Alone(s, c, q)
    ensures OnWay(s.db, q, x) && Order(q.at) == order && Onward(p, q)
    decreases order - Order(p.at)
  {
    if Order(p.at) == order {
      run, q := [], p;
    } else {
      var act, p1 := StepOnWay(s, c, p, x);
      var rest;
      rest, q := Advance(s, c, p1, x, order);
      OnwardOn(p, p1, q);
      RunCons(Alone(s, c, p), act, rest);
      run := [act] + rest;
    }
  }

  /** Which service and schema row it went by does not matter to what it concludes. */
  lemma SameConclusion(db: Rows, q: Proc, x: nat, id: Identity)
    requires OnWay(db, q, x) && q.at.Resolved?
    ensures q.pick.assignment == x && VersionAt(db, q.pick, q.authority) == LiveAt(db, x)
    ensures Identified(db, q.pick, id) <==> Identified(db, Choice(db, x), id)
  {
  }

  /** A whole undisturbed resolution. */
  lemma WholePass(s: Sys, c: nat, p: Proc, x: nat) returns (run: seq<Action>, q: Proc)
    requires Sound(s.db, p.authority, x) && Resolving(p.phase) && p.at.Looking?
    ensures Legal(Alone(s, c, p), run) && After(Alone(s, c, p), run) == Alone(s, c, q)
    ensures q.at.Resolved? && q.pick.assignment == x
    ensures q.key == p.key && q.authority == p.authority && q.phase == p.phase
    ensures Identified(s.db, q.pick, q.authority.identity) <==> Identified(s.db, Choice(s.db, x), q.authority.identity)
    ensures VersionAt(s.db, q.pick, q.authority) == LiveAt(s.db, x)
  {
    var look := Look(c, x);
    var p1 := LookAfter(s.db, p, x);
    assert Do(Alone(s, c, p), look) == Alone(s, c, p1);
    var rest;
    rest, q := Advance(s, c, p1, x, 10);
    SameConclusion(s.db, q, x, q.authority.identity);
    RunCons(Alone(s, c, p), look, rest);
    run := [look] + rest;
  }

  lemma CanReserve(s: Sys, c: nat, a: Authority, x: nat) returns (run: seq<Action>, p: Proc)
    requires Start0(s) && Ready(s.db, a, x)
    ensures Legal(s, run) && p.phase.Spent? && p.key == a.key && p.at.Looking? && p.locks == {}
    ensures p.phase.held == Reserved(s.db, a, x)
    ensures After(s, run) == Alone(s, c, p).(receipts := map[a.key := Entry(p.phase.held, c)])
  {
    var p0 := Proc(a.key, a, Reserving, Looking, NOTHING, {}, map[]);
    var pass, q := WholePass(s, c, p0, x);
    assert Do(s, Start(c, a)) == Alone(s, c, p0);
    RunCons(s, Start(c, a), pass);
    var s1 := Alone(s, c, q);
    var s2 := Do(s1, Reserve(c));
    var s3 := Do(s2, CommitReceipt(c));
    p := s3.procs[c];
    RunCons(s2, CommitReceipt(c), []);
    RunCons(s1, Reserve(c), [CommitReceipt(c)]);
    RunConcat(s, [Start(c, a)] + pass, [Reserve(c)] + [CommitReceipt(c)]);
    run := ([Start(c, a)] + pass) + ([Reserve(c)] + [CommitReceipt(c)]);
    assert s3 == Alone(s, c, p).(receipts := map[a.key := Entry(p.phase.held, c)]);
  }

  lemma CanAdmit(s: Sys, c: nat, p: Proc) returns (run: seq<Action>, q: Proc, s': Sys)
    requires p.phase.Delivering? && Confirmed(s.db, p) && ReceiptFor(s.db, p) == p.phase.due
    ensures Legal(Alone(s, c, p), run) && After(Alone(s, c, p), run) == Alone(s', c, q)
    ensures q.phase.Rechecking? && q.at.Looking? && q.authority == p.authority && q.locks == p.locks
    ensures q.phase.read.first == p.pick
    ensures s'.db == s.db && s'.deliveries == s.deliveries
    ensures Some(q.phase.read.version) == VersionAt(s.db, p.pick, p.authority)
  {
    var s1 := Alone(s, c, p);
    var s2 := Do(s1, Admit(c));
    var s3 := Do(s2, ReadMaterial(c));
    q, s' := s3.procs[c], s3;
    assert s3 == Alone(s3, c, q);
    RunCons(s2, ReadMaterial(c), []);
    RunCons(s1, Admit(c), [ReadMaterial(c)]);
    run := [Admit(c)] + [ReadMaterial(c)];
  }

  /** A call with its receipt, authorized again. */
  function Again(p: Proc, a: Authority): Proc
    requires p.phase.Spent?
  {
    p.(authority := a, phase := Delivering(p.phase.held))
  }

  /** What the receipt of an undisturbed reservation says. */
  ghost function Reserved(db: Rows, a: Authority, x: nat): Receipt
    requires Sound(db, a, x)
  {
    Receipt(a.identity.uuid, x, LiveAt(db, x).value, a.key.nonce)
  }

  /** The reservation, and the second authorization. */
  lemma CanBegin(s: Sys, c: nat, a: Authority, x: nat) returns (run: seq<Action>, s': Sys, p: Proc)
    requires Start0(s) && Ready(s.db, a, x)
    ensures Legal(s, run) && After(s, run) == Alone(s', c, p)
    ensures s'.db == s.db && s'.deliveries == s.deliveries
    ensures p.phase == Delivering(Reserved(s.db, a, x)) && p.authority == a && p.at.Looking? && p.locks == {}
  {
    var reserve, q := CanReserve(s, c, a, x);
    s' := s.(receipts := map[a.key := Entry(q.phase.held, c)]);
    p := Again(q, a);
    assert After(s, reserve) == Alone(s', c, q) && Do(Alone(s', c, q), Redeliver(c, a)) == Alone(s', c, p);
    RunCons(Alone(s', c, q), Redeliver(c, a), []);
    RunConcat(s, reserve, [Redeliver(c, a)]);
    run := reserve + [Redeliver(c, a)];
  }

  /** Over unchanged rows, a call with its receipt gets to read. */
  lemma CanRead(s: Sys, c: nat, p: Proc, x: nat) returns (run: seq<Action>, q: Proc, s': Sys)
    requires p.phase.Delivering? && p.at.Looking? && Ready(s.db, p.authority, x)
    requires p.phase.due == Reserved(s.db, p.authority, x)
    ensures Legal(Alone(s, c, p), run) && After(Alone(s, c, p), run) == Alone(s', c, q)
    ensures q.phase.Rechecking? && q.at.Looking? && q.authority == p.authority
    ensures s'.db == s.db && s'.deliveries == s.deliveries
    ensures Some(q.phase.read.version) == LiveAt(s.db, x)
  {
    var pass, p2 := WholePass(s, c, p, x);
    var rest;
    rest, q, s' := CanAdmit(s, c, p2);
    RunConcat(Alone(s, c, p), pass, rest);
    run := pass + rest;
  }

  /** Having read, it resolves again and returns the live version. */
  lemma CanReturn(s: Sys, c: nat, p: Proc, x: nat) returns (run: seq<Action>)
    requires p.phase.Rechecking? && p.at.Looking? && Ready(s.db, p.authority, x)
    requires Some(p.phase.read.version) == LiveAt(s.db, x)
    ensures Legal(Alone(s, c, p), run)
    ensures var s' := After(Alone(s, c, p), run);
            && |s'.deliveries| == |s.deliveries| + 1 && s'.deliveries[|s.deliveries|].caller == c
            && s'.deliveries[|s.deliveries|].job == p.phase.read
  {
    var pass, q := WholePass(s, c, p, x);
    var s1 := Alone(s, c, q);
    var s2 := Do(s1, Close(c));
    RunCons(s2, CommitDelivery(c), []);
    RunCons(s1, Close(c), [CommitDelivery(c)]);
    RunConcat(Alone(s, c, p), pass, [Close(c)] + [CommitDelivery(c)]);
    run := pass + ([Close(c)] + [CommitDelivery(c)]);
  }

  /** An authorized first call over consistent rows has a run that returns the live version. */
  lemma CanDeliver(s: Sys, c: nat, a: Authority, x: nat) returns (run: seq<Action>)
    requires Start0(s) && Ready(s.db, a, x)
    ensures Legal(s, run) && |After(s, run).deliveries| == 1 && After(s, run).deliveries[0].caller == c
    ensures Some(After(s, run).deliveries[0].job.version) == LiveAt(s.db, x)
  {
    var r1, s1, p := CanBegin(s, c, a, x);
    var r2, q, s2 := CanRead(s1, c, p, x);
    var r3 := CanReturn(s2, c, q, x);
    RunConcat(Alone(s1, c, p), r2, r3);
    RunConcat(s, r1, r2 + r3);
    run := r1 + (r2 + r3);
  }

  // ------------------------------------------------------------------
  // What the second resolution is for
  // ------------------------------------------------------------------

  /** Alone after its read, with its assignment on a service it has not locked, under a reference by credential. */
  ghost predicate Unanchored(s: Sys, p: Proc, x: nat, service: nat, y: nat) {
    && p.phase.Rechecking? && p.at.Looking?
    && p.authority.want.selector.ByCredential? && p.authority.identity.assignment == x
    && Sound(s.db, p.authority, x) && s.db[AssignmentId(x)].service == Some(service) && Unique(s.db)
    && ServiceId(service) !in p.locks && AssignmentId(y) !in p.locks && AssignmentId(y) !in s.db
  }

  /** The service moves to another target, and the credential gets a direct assignment. */
  function Moves(db: Rows, w: L.Want, x: nat, service: nat, y: nat): map<L.RowId, Option<Data>>
    requires AssignmentId(x) in db && db[AssignmentId(x)].AssignmentRow?
  {
    map[ServiceId(service) := Some(ServiceRow(w.target + 1)),
        AssignmentId(y) := Some(AssignmentRow(db[AssignmentId(x)].credential, None, w.target, w.purpose, true))]
  }

  /** Changes that leave the schemas alone. */
  lemma SlugsStay(db: Rows, changes: map<L.RowId, Option<Data>>)
    requires Unique(db) && forall r :: r in changes ==> r.kind != L.Schema
    ensures Unique(Written(db, changes))
    ensures forall r, slug :: Named(Written(db, changes), r, slug) <==> Named(db, r, slug)
    ensures forall slug :: Resolves(db, slug) ==> Resolves(Written(db, changes), slug)
  {
    var db' := Written(db, changes);
    forall r, q | r in db' && q in db' && SameSlug(db', r, q)
      ensures r == q
    {
      assert SameSlug(db, r, q);
    }
    forall slug | Resolves(db, slug)
      ensures Resolves(db', slug)
    {
      if slug.Some? {
        var r :| r in db && Named(db, r, slug.value);
        assert r in db' && Named(db', r, slug.value);
      }
    }
  }

  lemma MovedIsSound(s: Sys, p: Proc, x: nat, service: nat, y: nat)
    requires Unanchored(s, p, x, service, y)
    ensures Sound(Written(s.db, Moves(s.db, p.authority.want, x, service, y)), p.authority, y) && y != x
  {
    var w := p.authority.want;
    var changes := Moves(s.db, w, x, service, y);
    var db' := Written(s.db, changes);
    SlugsStay(s.db, changes);
    assert Matches(db', w, y);
    forall r | r in db' && r.kind == L.Assignment && Matches(db', w, r.pk)
      ensures r.pk == y
    {
      assert r == AssignmentId(r.pk);
      if r.pk != y {
        assert db'[r] == s.db[r];
        assert r.pk != x ==> Matches(s.db, w, r.pk);
      }
    }
  }

  /** From such a state the second resolution can end at another assignment. */
  lemma SecondChoiceFrom(s: Sys, c: nat, p: Proc, x: nat, service: nat, y: nat) returns (run: seq<Action>, q: Proc)
    requires Unanchored(s, p, x, service, y)
    ensures Legal(Alone(s, c, p), run) && After(Alone(s, c, p), run).procs == map[c := q]
    ensures q.phase == p.phase && q.at.Resolved? && q.pick.assignment == y != x
    ensures !Enabled(After(Alone(s, c, p), run), Close(c))
  {
    var changes := Moves(s.db, p.authority.want, x, service, y);
    MovedIsSound(s, p, x, service, y);
    var s1 := s.(db := Written(s.db, changes));
    MovesWritten(s, c, p, x, service, y);
    var pass;
    pass, q := WholePass(s1, c, p, y);
    RunCons(Alone(s, c, p), Write(changes), pass);
    run := [Write(changes)] + pass;
  }

  lemma MovesWritten(s: Sys, c: nat, p: Proc, x: nat, service: nat, y: nat)
    requires Unanchored(s, p, x, service, y)
    ensures var changes := Moves(s.db, p.authority.want, x, service, y);
            && Enabled(Alone(s, c, p), Write(changes))
            && Do(Alone(s, c, p), Write(changes)) == Alone(s.(db := Written(s.db, changes)), c, p)
  {
    SlugsStay(s.db, Moves(s.db, p.authority.want, x, service, y));
  }

  /** A direct assignment moves to a service of the target. */
  function Attached(db: Rows, x: nat, service: nat): map<L.RowId, Option<Data>>
    requires AssignmentId(x) in db && db[AssignmentId(x)].AssignmentRow?
  {
    map[AssignmentId(x) := Some(db[AssignmentId(x)].(service := Some(service)))]
  }

  ghost predicate OfTarget(db: Rows, w: L.Want, service: nat) {
    ServiceId(service) in db && db[ServiceId(service)] == ServiceRow(w.target)
  }

  lemma AttachedIsReady(db: Rows, a: Authority, x: nat, service: nat)
    requires Ready(db, a, x) && OfTarget(db, a.want, service) && Unique(db)
    ensures var db' := Written(db, Attached(db, x, service));
            Ready(db', a, x) && Unique(db') && Reserved(db', a, x) == Reserved(db, a, x)
  {
    var changes := Attached(db, x, service);
    var db' := Written(db, changes);
    SlugsStay(db, changes);
    assert Matches(db', a.want, x);
    forall r | r in db' && r.kind == L.Assignment && Matches(db', a.want, r.pk)
      ensures r.pk == x
    {
      assert r == AssignmentId(r.pk);
      assert r.pk != x ==> Matches(db, a.want, r.pk);
    }
    FieldsStay(db, changes, SlugAt(db, Choice(db, x)), a.identity.fields);
  }

  lemma FieldsStay(db: Rows, changes: map<L.RowId, Option<Data>>, slug: Option<nat>, fields: Option<nat>)
    requires FieldsAre(db, slug, fields) && forall r :: r in changes ==> r.kind != L.Schema
    ensures FieldsAre(Written(db, changes), slug, fields)
  {
    if slug.Some? {
      var r :| r in db && Named(db, r, slug.value) && db[r].fields == fields.value;
      assert r in Written(db, changes) && Named(Written(db, changes), r, slug.value);
    }
  }

  lemma AttachedOnWay(db: Rows, p: Proc, x: nat, service: nat)
    requires Ready(db, p.authority, x) && OfTarget(db, p.authority.want, service) && Unique(db)
    requires db[AssignmentId(x)].service.None? && Resolving(p.phase)
    ensures OnWay(Written(db, Attached(db, x, service)), LookAfter(db, p, x), x)
  {
    AttachedIsReady(db, p.authority, x, service);
  }

  lemma AttachedWritten(s: Sys, c: nat, p: Proc, x: nat, service: nat)
    requires Ready(s.db, p.authority, x) && OfTarget(s.db, p.authority.want, service) && Unique(s.db) && p.locks == {}
    ensures var write := Write(Attached(s.db, x, service));
            && Enabled(Alone(s, c, p), write)
            && Do(Alone(s, c, p), write) == Alone(s.(db := Written(s.db, Attached(s.db, x, service))), c, p)
  {
    AttachedIsReady(s.db, p.authority, x, service);
  }

  /** The first resolution reads a direct assignment, which moves to a service before it is locked. */
  lemma DriftedLook(s: Sys, c: nat, p: Proc, x: nat, service: nat) returns (run: seq<Action>, q: Proc, s': Sys)
    requires Ready(s.db, p.authority, x) && OfTarget(s.db, p.authority.want, service) && Unique(s.db)
    requires s.db[AssignmentId(x)].service.None? && p.phase.Delivering? && p.at.Looking? && p.locks == {}
    ensures Legal(Alone(s, c, p), run) && After(Alone(s, c, p), run) == Alone(s', c, q)
    ensures s' == s.(db := Written(s.db, Attached(s.db, x, service))) && OnWay(s'.db, q, x) && q.pick.service.None?
    ensures q.key == p.key && q.authority == p.authority && q.phase == p.phase && q.locks == {}
  {
    var write := Write(Attached(s.db, x, service));
    q := LookAfter(s.db, p, x);
    s' := s.(db := Written(s.db, Attached(s.db, x, service)));
    AttachedOnWay(s.db, p, x, service);
    AttachedWritten(s, c, q, x, service);
    assert Do(Alone(s, c, p), Look(c, x)) == Alone(s, c, q);
    RunCons(Alone(s, c, q), write, []);
    RunCons(Alone(s, c, p), Look(c, x), [write]);
    run := [Look(c, x)] + [write];
  }

  /** It is accepted nonetheless, and reads. */
  lemma DriftedRead(s: Sys, c: nat, p: Proc, x: nat, service: nat, y: nat) returns (run: seq<Action>, q: Proc, s': Sys)
    requires Ready(s.db, p.authority, x) && OfTarget(s.db, p.authority.want, service) && Unique(s.db)
    requires s.db[AssignmentId(x)].service.None? && p.authority.want.selector.ByCredential? && AssignmentId(y) !in s.db
    requires p.phase.Delivering? && p.phase.due == Reserved(s.db, p.authority, x) && p.at.Looking? && p.locks == {}
    ensures Legal(Alone(s, c, p), run) && After(Alone(s, c, p), run) == Alone(s', c, q)
    ensures Unanchored(s', q, x, service, y) && q.phase.read.first.assignment == x
  {
    var look, p1, s1 := DriftedLook(s, c, p, x, service);
    AttachedIsReady(s.db, p.authority, x, service);
    var pass, p2 := Advance(s1, c, p1, x, 10);
    SameConclusion(s1.db, p2, x, p.authority.identity);
    var rest;
    rest, q, s' := CanAdmit(s1, c, p2);
    RunConcat(Alone(s1, c, p1), pass, rest);
    RunConcat(Alone(s, c, p), look, pass + rest);
    run := look + (pass + rest);
  }

  /**
   * From every start with an acceptable call for a direct assignment, whose
   * target has a service: a run in which the second resolution ends at another
   * assignment than the first. The identity comparison after the read is what
   * refuses the delivery then.
   */
  lemma SecondChoiceMayDiffer(s: Sys, c: nat, a: Authority, x: nat, service: nat, y: nat)
    returns (run: seq<Action>, q: Proc)
    requires Start0(s) && Ready(s.db, a, x) && a.want.selector.ByCredential? && s.db[AssignmentId(x)].service.None?
    requires OfTarget(s.db, a.want, service) && AssignmentId(y) !in s.db
    ensures Legal(s, run) && After(s, run).procs == map[c := q]
    ensures q.phase.Rechecking? && q.phase.read.first.assignment == x
    ensures q.at.Resolved? && q.pick.assignment == y != x && !Enabled(After(s, run), Close(c))
  {
    var r1, s1, p := CanBegin(s, c, a, x);
    var r2, p2, s2 := DriftedRead(s1, c, p, x, service, y);
    var r3;
    r3, q := SecondChoiceFrom(s2, c, p2, x, service, y);
    RunConcat(Alone(s1, c, p), r2, r3);
    RunConcat(s, r1, r2 + r3);
    run := r1 + (r2 + r3);
  }

  // ------------------------------------------------------------------
  // When the identity still holds at the commit
  // ------------------------------------------------------------------

  /** A bundle returned although the identity was another one when its transaction committed. */
  ghost predicate Strayed(d: Delivered, c: nat) {
    d.caller == c && !Identified(d.rows, d.after, d.job.again.identity)
  }

  ghost predicate Strays(s: Sys, rest: seq<Action>, c: nat) {
    && Legal(s, rest)
    && exists i :: 0 <= i < |After(s, rest).deliveries| && Strayed(After(s, rest).deliveries[i], c)
  }

  /** About to commit with its type's schema locked, or past that without a stray. */
  ghost predicate Settled(s: Sys, c: nat) {
    && c in s.procs
    && (match s.procs[c].phase
        case Closing(_, after, _, _) => Pinned(s.db, s.procs[c].locks, after)
        case Returned => true
        case Refused => true
        case _ => false)
    && (forall i :: 0 <= i < |s.deliveries| ==> !Strayed(s.deliveries[i], c))
  }

  lemma SettledWrite(s: Sys, changes: map<L.RowId, Option<Data>>, c: nat)
    requires Inv(s) && Enabled(s, Write(changes)) && Settled(s, c)
    ensures Settled(Do(s, Write(changes)), c)
  {
    var p := s.procs[c];
    if p.phase.Closing? {
      assert ProcOK(s.db, s.receipts, c, p);
      assert Agree(s.db, Written(s.db, changes), p.locks);
      ResolvedStable(s.db, Written(s.db, changes), p.locks, p.phase.after, p.phase.closed.again);
    }
  }

  lemma SettledCommit(s: Sys, x: nat, c: nat)
    requires Inv(s) && Enabled(s, CommitDelivery(x)) && Settled(s, c)
    ensures Settled(Do(s, CommitDelivery(x)), c)
  {
    assert ProcOK(s.db, s.receipts, x, s.procs[x]);
  }

  lemma SettledDo(s: Sys, act: Action, c: nat)
    requires Inv(s) && Enabled(s, act) && Settled(s, c)
    ensures Settled(Do(s, act), c)
  {
    if act.Write? {
      SettledWrite(s, act.changes, c);
    } else if act.CommitDelivery? {
      SettledCommit(s, act.c, c);
    } else {
      SettledOther(s, act, c);
    }
  }

  lemma SettledOther(s: Sys, act: Action, c: nat)
    requires Enabled(s, act) && !act.Write? && !act.CommitDelivery? && Settled(s, c)
    ensures Settled(Do(s, act), c)
  {
    var s' := Do(s, act);
    assert s'.deliveries == s.deliveries && s'.db == s.db;
    assert act.c == c || s'.procs[c] == s.procs[c];
  }

  lemma {:induction false} SettledRun(s: Sys, rest: seq<Action>, c: nat)
    requires Inv(s) && Legal(s, rest) && Settled(s, c)
    ensures Settled(After(s, rest), c)
    decreases |rest|
  {
    if rest != [] {
      SettledDo(s, rest[0], c);
      InvDo(s, rest[0]);
      SettledRun(Do(s, rest[0]), rest[1..], c);
    }
  }

  /** The schema behind the type gets other fields under the same slug. */
  function Refields(db: Rows, r: L.RowId): map<L.RowId, Option<Data>>
    requires r in db && db[r].SchemaRow?
  {
    map[r := Some(db[r].(fields := db[r].fields + 1))]
  }

  lemma RefieldsStray(db: Rows, pick: Pick, id: Identity, r: L.RowId)
    requires Unique(db) && Identified(db, pick, id) && SlugAt(db, pick).Some? && Named(db, r, SlugAt(db, pick).value)
    ensures Unique(Written(db, Refields(db, r))) && !Identified(Written(db, Refields(db, r)), pick, id)
  {
    var db' := Written(db, Refields(db, r));
    forall q, o | q in db' && o in db' && SameSlug(db', q, o)
      ensures q == o
    {
      assert SameSlug(db, q, o);
    }
    var slug := SlugAt(db, pick).value;
    var n :| n in db && Named(db, n, slug) && db[n].fields == id.fields.value;
    assert SameSlug(db, r, n);
    if q :| q in db' && Named(db', q, slug) && db'[q].fields == id.fields.value {
      assert SameSlug(db, r, q);
    }
  }

  lemma CommitNow(s: Sys, c: nat)
    requires c in s.procs && s.procs[c].phase.Closing?
    requires !Identified(s.db, s.procs[c].phase.after, s.procs[c].phase.closed.again.identity)
    ensures Strays(s, [CommitDelivery(c)], c)
  {
    RunCons(s, CommitDelivery(c), []);
    assert [CommitDelivery(c)] + [] == [CommitDelivery(c)];
    assert Strayed(After(s, [CommitDelivery(c)]).deliveries[|s.deliveries|], c);
  }

  lemma StraysAfter(s: Sys, act: Action, rest: seq<Action>, c: nat)
    requires Enabled(s, act) && Strays(Do(s, act), rest, c)
    ensures Strays(s, [act] + rest, c)
  {
    RunCons(s, act, rest);
  }

  /** With the named schema free, its fields change before the commit. */
  lemma FreeSchemaStrays(s: Sys, c: nat, r: L.RowId) returns (rest: seq<Action>)
    requires Unique(s.db) && c in s.procs && s.procs[c].phase.Closing? && Untouched(s, r)
    requires var after := s.procs[c].phase.after;
             SlugAt(s.db, after).Some? && Named(s.db, r, SlugAt(s.db, after).value)
    requires Identified(s.db, s.procs[c].phase.after, s.procs[c].phase.closed.again.identity)
    ensures Strays(s, rest, c)
  {
    var write := Write(Refields(s.db, r));
    RefieldsStray(s.db, s.procs[c].phase.after, s.procs[c].phase.closed.again.identity, r);
    CommitNow(Do(s, write), c);
    StraysAfter(s, write, [CommitDelivery(c)], c);
    rest := [write] + [CommitDelivery(c)];
  }

  /** If another transaction has the named schema, it is refused first. */
  lemma UnpinnedStrays(s: Sys, c: nat) returns (rest: seq<Action>)
    requires Inv(s) && c in s.procs && s.procs[c].phase.Closing?
    requires !Pinned(s.db, s.procs[c].locks, s.procs[c].phase.after)
    ensures Strays(s, rest, c)
  {
    var after, id := s.procs[c].phase.after, s.procs[c].phase.closed.again.identity;
    if !Identified(s.db, after, id) {
      CommitNow(s, c);
      rest := [CommitDelivery(c)];
    } else {
      var r :| r in s.db && Named(s.db, r, SlugAt(s.db, after).value);
      if Untouched(s, r) {
        rest := FreeSchemaStrays(s, c, r);
      } else {
        var d :| d in s.procs && r in s.procs[d].locks;
        assert ProcOK(s.db, s.receipts, d, s.procs[d]);
        var more := FreeSchemaStrays(Do(s, Refuse(d)), c, r);
        StraysAfter(s, Refuse(d), more, c);
        rest := [Refuse(d)] + more;
      }
    }
  }

  /**
   * A delivery that has compared the identity the second time can return a
   * bundle whose identity is another one at the commit, if and only if its type
   * is a stored one and the schema that has the slug is not among its locks.
   */
  lemma IdentityStraysIff(s: Sys, run: seq<Action>, c: nat)
    requires Start0(s) && Legal(s, run) && c in After(s, run).procs && After(s, run).procs[c].phase.Closing?
    ensures var s' := After(s, run);
            (exists rest :: Strays(s', rest, c)) <==> !Pinned(s'.db, s'.procs[c].locks, s'.procs[c].phase.after)
  {
    InvRun(s, run);
    var s' := After(s, run);
    if Pinned(s'.db, s'.procs[c].locks, s'.procs[c].phase.after) {
      forall i | 0 <= i < |s'.deliveries|
        ensures !Strayed(s'.deliveries[i], c)
      {
        assert DeliveredOK(s'.receipts, s'.successes, s'.deliveries[i]);
      }
      forall rest | Legal(s', rest)
        ensures !Strays(s', rest, c)
      {
        SettledRun(s', rest, c);
      }
    } else {
      var rest := UnpinnedStrays(s', c);
    }
  }

  /** No locked row has the slug. */
  ghost predicate Loose(db: Rows, locks: set<L.RowId>, slug: nat) {
    forall r :: r in locks ==> !Named(db, r, slug)
  }

  lemma {:induction false} FreshNumber(used: set<nat>) returns (n: nat)
    ensures forall k :: k in used ==> k < n
  {
    if used == {} {
      n := 0;
    } else {
      var k :| k in used;
      var rest := FreshNumber(used - {k});
      n := if rest <= k then k + 1 else rest;
      assert forall i :: i in used ==> i == k || i in used - {k};
    }
  }

  /** A number that is neither a row nor a slug yet. */
  ghost predicate Fresh(db: Rows, locks: set<L.RowId>, n: nat) {
    && SchemaId(n) !in db && SchemaId(n) !in locks
    && forall r :: r in db && db[r].SchemaRow? ==> db[r].named != n
  }

  lemma FreshSchema(db: Rows, locks: set<L.RowId>) returns (n: nat)
    ensures Fresh(db, locks, n)
  {
    var pks, slugs := set r | r in db.Keys + locks :: r.pk, set r | r in db && db[r].SchemaRow? :: db[r].named;
    n := FreshNumber(pks + slugs);
    assert forall r :: r in db.Keys + locks ==> r.pk in pks;
    assert forall r :: r in db && db[r].SchemaRow? ==> db[r].named in slugs;
  }

  /** A schema gives its slug to a new one of equal content. */
  function Renames(db: Rows, m: L.RowId, n: nat): map<L.RowId, Option<Data>>
    requires m in db && db[m].SchemaRow?
  {
    map[m := Some(SchemaRow(n, db[m].fields)), SchemaId(n) := Some(db[m])]
  }

  lemma RenamesUnique(db: Rows, m: L.RowId, n: nat, slug: nat)
    requires Unique(db) && Named(db, m, slug) && Fresh(db, {}, n)
    ensures var db' := Written(db, Renames(db, m, n));
            Unique(db') && Named(db', SchemaId(n), slug) && !Named(db', m, slug) && db'[SchemaId(n)] == db[m]
    ensures var db' := Written(db, Renames(db, m, n));
            forall r :: r in db && r != m ==> r in db' && db'[r] == db[r]
  {
    var db' := Written(db, Renames(db, m, n));
    forall r, q | r in db' && q in db' && SameSlug(db', r, q)
      ensures r == q
    {
      assert SameSlug(db, if r == SchemaId(n) then m else r, if q == SchemaId(n) then m else q)
          || r == m || q == m;
    }
  }

  lemma RenamesReady(db: Rows, a: Authority, x: nat, m: L.RowId, n: nat, slug: nat)
    requires Ready(db, a, x) && Unique(db) && Named(db, m, slug) && Fresh(db, {}, n)
    requires SlugAt(db, Choice(db, x)) == Some(slug)
    ensures var db' := Written(db, Renames(db, m, n));
            Ready(db', a, x) && Reserved(db', a, x) == Reserved(db, a, x) && SlugAt(db', Choice(db', x)) == Some(slug)
  {
    var db' := Written(db, Renames(db, m, n));
    RenamesUnique(db, m, n, slug);
    assert Matches(db', a.want, x);
    forall r | r in db' && r.kind == L.Assignment && Matches(db', a.want, r.pk)
      ensures r.pk == x
    {
      assert r == AssignmentId(r.pk) && Matches(db, a.want, r.pk);
    }
    var r :| r in db && Named(db, r, slug) && db[r].fields == a.identity.fields.value;
    assert SameSlug(db, r, m);
  }

  /** Up to the request for the schema, which nobody has locked. */
  lemma ToSchema(s: Sys, c: nat, p: Proc, x: nat, slug: nat) returns (run: seq<Action>, q: Proc)
    requires Sound(s.db, p.authority, x) && Resolving(p.phase) && p.at.Looking?
    requires SlugAt(s.db, Choice(s.db, x)) == Some(slug) && Loose(s.db, p.locks, slug)
    ensures Legal(Alone(s, c, p), run) && After(Alone(s, c, p), run) == Alone(s, c, q)
    ensures OnWay(s.db, q, x) && q.at.WantSchema? && q.authority == p.authority && q.phase == p.phase
    ensures q.pick.schema.Some? && Named(s.db, SchemaId(q.pick.schema.value), slug) && Loose(s.db, q.locks, slug)
  {
    var p1 := LookAfter(s.db, p, x);
    assert Do(Alone(s, c, p), Look(c, x)) == Alone(s, c, p1);
    var way;
    way, q := WayToSchema(s, c, p1, x);
    RunCons(Alone(s, c, p), Look(c, x), way);
    run := [Look(c, x)] + way;
  }

  lemma WayToSchema(s: Sys, c: nat, p: Proc, x: nat) returns (run: seq<Action>, q: Proc)
    requires OnWay(s.db, p, x) && p.at.WantService?
    ensures Legal(Alone(s, c, p), run) && After(Alone(s, c, p), run) == Alone(s, c, q)
    ensures OnWay(s.db, q, x) && q.at.WantSchema? && Onward(p, q)
    ensures LooksUp(s.db, SlugAt(s.db, Choice(s.db, x)), q.pick.schema)
  {
    var way, p1 := Advance(s, c, p, x, 7);
    assert SlugAt(s.db, p1.pick) == SlugAt(s.db, Choice(s.db, x));
    var act;
    act, q := StepOnWay(s, c, p1, x);
    OnwardOn(p, p1, q);
    RunCons(Alone(s, c, p1), act, []);
    RunConcat(Alone(s, c, p), way, [act]);
    run := way + [act];
  }

  lemma RenamesWritten(s: Sys, c: nat, p: Proc, m: L.RowId, n: nat, slug: nat)
    requires Unique(s.db) && Named(s.db, m, slug) && Fresh(s.db, p.locks, n) && m !in p.locks
    ensures var write := Write(Renames(s.db, m, n));
            && Enabled(Alone(s, c, p), write)
            && Do(Alone(s, c, p), write) == Alone(s.(db := Written(s.db, Renames(s.db, m, n))), c, p)
  {
    RenamesUnique(s.db, m, n, slug);
  }

  /** What stays of an acceptable call when its schema is renamed. */
  ghost predicate Carries(db: Rows, db': Rows, a: Authority, x: nat, slug: nat) {
    && Ready(db, a, x) && Ready(db', a, x) && Unique(db') && Reserved(db', a, x) == Reserved(db, a, x)
    && SlugAt(db', Choice(db', x)) == Some(slug)
  }

  /** The rename, as one step of the run. */
  lemma RenameOnWay(s: Sys, c: nat, p: Proc, x: nat, slug: nat) returns (write: Action, s': Sys, n: nat)
    requires Ready(s.db, p.authority, x) && Unique(s.db) && OnWay(s.db, p, x) && p.at.WantSchema?
    requires SlugAt(s.db, Choice(s.db, x)) == Some(slug) && Loose(s.db, p.locks, slug)
    requires p.pick.schema.Some? && Named(s.db, SchemaId(p.pick.schema.value), slug)
    ensures Enabled(Alone(s, c, p), write) && Do(Alone(s, c, p), write) == Alone(s', c, p) && s' == s.(db := s'.db)
    ensures Carries(s.db, s'.db, p.authority, x, slug) && OnWay(s'.db, p, x)
    ensures Named(s'.db, SchemaId(n), slug) && SchemaId(n) !in p.locks && p.pick.schema != Some(n)
  {
    var m := SchemaId(p.pick.schema.value);
    n := FreshSchema(s.db, p.locks);
    write := Write(Renames(s.db, m, n));
    RenamesUnique(s.db, m, n, slug);
    RenamesReady(s.db, p.authority, x, m, n, slug);
    RenamesWritten(s, c, p, m, n, slug);
    s' := s.(db := Written(s.db, Renames(s.db, m, n)));
  }

  /** The schema is renamed between the lookup and the lock: the resolution ends with the wrong row locked. */
  lemma RenamedPass(s: Sys, c: nat, p: Proc, x: nat, slug: nat) returns (run: seq<Action>, q: Proc, s': Sys)
    requires Ready(s.db, p.authority, x) && Unique(s.db) && Resolving(p.phase) && p.at.Looking?
    requires SlugAt(s.db, Choice(s.db, x)) == Some(slug) && Loose(s.db, p.locks, slug)
    ensures Legal(Alone(s, c, p), run) && After(Alone(s, c, p), run) == Alone(s', c, q) && s' == s.(db := s'.db)
    ensures Carries(s.db, s'.db, p.authority, x, slug) && Loose(s'.db, q.locks, slug)
    ensures OnWay(s'.db, q, x) && q.at.Resolved? && q.authority == p.authority && q.phase == p.phase
  {
    var way, p1 := ToSchema(s, c, p, x, slug);
    var write, n;
    write, s', n := RenameOnWay(s, c, p1, x, slug);
    var rest;
    rest, q := Advance(s', c, p1, x, 10);
    StillLoose(s'.db, p1, q, n, slug);
    RunCons(Alone(s, c, p1), write, rest);
    RunConcat(Alone(s, c, p), way, [write] + rest);
    run := way + ([write] + rest);
  }

  lemma StillLoose(db: Rows, p: Proc, q: Proc, n: nat, slug: nat)
    requires Unique(db) && Named(db, SchemaId(n), slug) && SchemaId(n) !in p.locks && p.pick.schema != Some(n)
    requires Onward(p, q) && p.at.WantSchema?
    ensures Loose(db, q.locks, slug)
  {
    forall r | r in q.locks
      ensures !Named(db, r, slug)
    {
      if Named(db, r, slug) {
        assert SameSlug(db, r, SchemaId(n));
      }
    }
  }

  lemma CloseOnWay(s: Sys, c: nat, p: Proc, x: nat) returns (q: Proc)
    requires Ready(s.db, p.authority, x) && OnWay(s.db, p, x) && p.at.Resolved? && p.phase.Rechecking?
    requires Some(p.phase.read.version) == LiveAt(s.db, x)
    ensures Enabled(Alone(s, c, p), Close(c)) && Do(Alone(s, c, p), Close(c)) == Alone(s, c, q)
    ensures q == Closed(s.db, p)
  {
    SameConclusion(s.db, p, x, p.authority.identity);
    q := Closed(s.db, p);
  }

  /** Two renames later the delivery is about to commit, and the schema that has the slug is not locked. */
  lemma RenamedClose(s: Sys, c: nat, p: Proc, x: nat, slug: nat) returns (run: seq<Action>, q: Proc, s': Sys)
    requires Ready(s.db, p.authority, x) && Unique(s.db) && p.phase.Rechecking? && p.at.Looking?
    requires SlugAt(s.db, Choice(s.db, x)) == Some(slug) && Loose(s.db, p.locks, slug)
    requires Some(p.phase.read.version) == LiveAt(s.db, x)
    ensures Legal(Alone(s, c, p), run) && After(Alone(s, c, p), run) == Alone(s', c, q)
    ensures q.phase.Closing? && !Pinned(s'.db, q.locks, q.phase.after)
  {
    var pass, p1, s1 := RenamedPass(s, c, p, x, slug);
    q := CloseOnWay(s1, c, p1, x);
    s' := s1;
    assert SlugAt(s1.db, p1.pick) == Some(slug);
    RunCons(Alone(s1, c, p1), Close(c), []);
    RunConcat(Alone(s, c, p), pass, [Close(c)]);
    run := pass + [Close(c)];
  }

  lemma RenamedRead(s: Sys, c: nat, p: Proc, x: nat, slug: nat) returns (run: seq<Action>, q: Proc, s': Sys)
    requires Ready(s.db, p.authority, x) && Unique(s.db) && p.phase.Delivering? && p.at.Looking? && p.locks == {}
    requires SlugAt(s.db, Choice(s.db, x)) == Some(slug) && p.phase.due == Reserved(s.db, p.authority, x)
    ensures Legal(Alone(s, c, p), run) && After(Alone(s, c, p), run) == Alone(s', c, q)
    ensures q.phase.Rechecking? && q.at.Looking? && Ready(s'.db, q.authority, x) && Unique(s'.db)
    ensures SlugAt(s'.db, Choice(s'.db, x)) == Some(slug) && Loose(s'.db, q.locks, slug)
    ensures Some(q.phase.read.version) == LiveAt(s'.db, x)
  {
    var pass, p1, s1 := RenamedPass(s, c, p, x, slug);
    SameConclusion(s1.db, p1, x, p.authority.identity);
    var rest;
    rest, q, s' := CanAdmit(s1, c, p1);
    RunConcat(Alone(s, c, p), pass, rest);
    run := pass + rest;
  }

  lemma StraysConcat(s: Sys, run: seq<Action>, rest: seq<Action>, c: nat)
    requires Legal(s, run) && Strays(After(s, run), rest, c)
    ensures Strays(s, run + rest, c)
  {
    RunConcat(s, run, rest);
  }

  /**
   * From every start with an acceptable call for a credential of a stored type:
   * a run that returns a bundle whose identity, at the commit, is not the frozen one.
   */
  lemma RenameStrays(s: Sys, c: nat, a: Authority, x: nat) returns (run: seq<Action>)
    requires Start0(s) && Ready(s.db, a, x) && SlugAt(s.db, Choice(s.db, x)).Some?
    ensures Strays(s, run, c)
  {
    var slug := SlugAt(s.db, Choice(s.db, x)).value;
    var r1, s1, p1 := CanBegin(s, c, a, x);
    var r2, p2, s2 := RenamedRead(s1, c, p1, x, slug);
    var r3, p3, s3 := RenamedClose(s2, c, p2, x, slug);
    RunConcat(Alone(s1, c, p1), r2, r3);
    RunConcat(s, r1, r2 + r3);
    var close := r1 + (r2 + r3);
    InvRun(s, close);
    var rest := UnpinnedStrays(After(s, close), c);
    StraysConcat(s, close, rest, c);
    run := close + rest;
  }
}
