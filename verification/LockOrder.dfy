/**
 * Row locks of material owners, quick-adds and automation resolvers.
 *
 * Rows are ranked target object, Service, policy, engine, credential,
 * assignment, type schema, and by primary key within a kind. Owners declare
 * their graph, lock it kind by kind and freeze it. Resolvers lock one service,
 * the credential graph, the assignment and the schema, and a delivery does so
 * twice in one transaction.
 */
module LockOrder {
  import opened Prelude

  datatype Kind = TargetObject | Service | Policy | Engine | Credential | Assignment | Schema

  datatype RowId = RowId(kind: Kind, pk: nat)

  function Rank(k: Kind): nat {
    match k
    case TargetObject => 0
    case Service => 1
    case Policy => 2
    case Engine => 3
    case Credential => 4
    case Assignment => 5
    case Schema => 6
  }

  predicate Before(a: RowId, b: RowId) {
    Rank(a.kind) < Rank(b.kind) || (a.kind == b.kind && a.pk < b.pk)
  }

  predicate Ascending(q: seq<RowId>) {
    forall i, j :: 0 <= i < j < |q| ==> Before(q[i], q[j])
  }

  /** The columns the lock programs follow. A credential's type is built in, or the slug of a schema. */
  datatype Data =
    | Plain
    | ServiceOf(parent: nat)
    | PolicyOf(engine: nat)
    | CredentialOf(policy: nat, engine: nat, slug: Option<nat>)
    | AssignmentOf(credential: nat, service: Option<nat>, target: nat, purpose: nat, enabled: bool)
    | SchemaOf(named: nat)

  type Content = map<RowId, Data>

  /** A reference names one assignment, or else a credential. */
  datatype Selector = ByAssignment(pk: nat) | ByCredential(pk: nat)

  /** What a dispatch asks for. */
  datatype Want = Want(target: nat, purpose: nat, selector: Selector)

  /** An enabled assignment of the purpose, on the target itself or on a service of it, that the reference selects. */
  predicate Matches(c: Content, w: Want, a: nat) {
    var r := RowId(Assignment, a);
    && r in c && c[r].AssignmentOf? && c[r].purpose == w.purpose && c[r].enabled
    && (match w.selector
        case ByAssignment(pk) => a == pk
        case ByCredential(pk) => c[r].credential == pk)
    && if c[r].service.None? then c[r].target == w.target else
         var s := RowId(Service, c[r].service.value);
         s in c && c[s].ServiceOf? && c[s].parent == w.target
  }

  datatype OwnerStage = Fresh | AtTarget | AtService | AtPolicies | AtEngines | AtCredentials | Done

  /** What one pass of a resolver has read so far. */
  datatype Pick = Pick(
    assignment: nat, service: Option<nat>, credential: nat, policy: nat, engine: nat, schema: Option<nat>)

  datatype ResolverStage =
    | Idle | ServiceAsked | PolicyAsked | EnginesAsked | CredentialAsked | AssignmentAsked | SchemaAsked

  datatype Program =
    | MaterialOwner(stage: OwnerStage, known: set<RowId>, frozen: bool, credentials: set<RowId>)
    | Resolver(at: ResolverStage, want: Want, pick: Pick, first: Option<Pick>)

  /** `own` are rows the transaction inserted; nobody else sees them before it commits. */
  datatype Proc = Proc(program: Program, held: set<RowId>, own: set<RowId>, queue: seq<RowId>)

  datatype Sys = Sys(procs: map<nat, Proc>, content: Content, gone: set<RowId>)

  datatype OwnerAct =
    | LockTarget(pk: nat)
    | LockService(pk: nat)
    | LinkCredential(pk: nat)
    | Declare(credentials: set<RowId>, policies: set<RowId>, queue: seq<RowId>)
    | DeclareEngines(engines: set<RowId>, queue: seq<RowId>)
    | AskCredentials(queue: seq<RowId>)
    | Freeze
    | Insert(row: RowId)

  datatype ResolverAct =
    | PickAssignment(a: nat)
    | AskPolicy
    | AskEngines(queue: seq<RowId>)
    | AskCredential
    | AskAssignment
    | AskSchema(schema: Option<nat>)
    | NextPass

  datatype Action =
    | StartOwner(p: nat)
    | StartResolver(p: nat, want: Want)
    | Lock(p: nat)
    | End(p: nat)
    | OwnerDoes(p: nat, owner: OwnerAct)
    | ResolverDoes(p: nat, resolver: ResolverAct)
    | Touch(row: RowId, data: Option<Data>)

  predicate Free(s: Sys, r: RowId) {
    forall p :: p in s.procs ==> r !in s.procs[p].held && r !in s.procs[p].own
  }

  /** A locking statement finds the requested rows that exist, in primary key order. */
  predicate Finds(c: Content, me: Proc, requested: set<RowId>, queue: seq<RowId>) {
    && Ascending(queue)
    && (forall r :: r in queue ==> r in requested && (r in c || r in me.own))
    && (forall r :: r in requested && (r in c || r in me.own) ==> r in queue)
  }

  predicate Allocated(c: Content, gone: set<RowId>, me: Proc, rows: set<RowId>) {
    forall r :: r in rows ==> r in c || r in gone || r in me.own
  }

  predicate OfKind(rows: set<RowId>, k: Kind) {
    forall r :: r in rows ==> r.kind == k
  }

  /** A frozen graph accepts a request only for rows it already knows. */
  predicate Declarable(g: Program, rows: set<RowId>)
    requires g.MaterialOwner?
  {
    !g.frozen || rows <= g.known
  }

  predicate OwnerCan(c: Content, gone: set<RowId>, me: Proc, act: OwnerAct)
    requires me.program.MaterialOwner?
  {
    var g := me.program;
    match act
    case LockTarget(pk) => g.stage.Fresh? && RowId(TargetObject, pk) in c
    case LockService(pk) => (g.stage.Fresh? || g.stage.AtTarget?) && RowId(Service, pk) in c
    case LinkCredential(pk) =>
      (g.stage.Fresh? || g.stage.AtTarget? || g.stage.AtService?) && RowId(Credential, pk) in c
    case Declare(credentials, policies, queue) =>
      && (g.frozen || g.stage.Fresh? || g.stage.AtTarget? || g.stage.AtService?)
      && OfKind(credentials, Credential) && OfKind(policies, Policy)
      && Allocated(c, gone, me, credentials + policies)
      && Declarable(g, credentials + policies)
      && Finds(c, me, policies, queue)
    case DeclareEngines(engines, queue) =>
      && g.stage.AtPolicies? && OfKind(engines, Engine)
      && Allocated(c, gone, me, engines)
      && Declarable(g, engines)
      && Finds(c, me, engines, queue)
    case AskCredentials(queue) => g.stage.AtEngines? && Finds(c, me, g.credentials, queue)
    case Freeze => g.stage.AtCredentials?
    case Insert(row) => g.frozen && row !in c && row !in gone
  }

  function OwnerNext(me: Proc, act: OwnerAct): Proc
    requires me.program.MaterialOwner?
  {
    var g := me.program;
    match act
    case LockTarget(pk) => me.(program := g.(stage := AtTarget), queue := [RowId(TargetObject, pk)])
    case LockService(pk) => me.(program := g.(stage := AtService), queue := [RowId(Service, pk)])
    case LinkCredential(pk) => me.(program := g.(stage := Done), queue := [RowId(Credential, pk)])
    case Declare(credentials, policies, queue) =>
      me.(program := g.(stage := AtPolicies, known := g.known + credentials + policies, credentials := credentials),
          queue := queue)
    case DeclareEngines(engines, queue) =>
      me.(program := g.(stage := AtEngines, known := g.known + engines), queue := queue)
    case AskCredentials(queue) => me.(program := g.(stage := AtCredentials), queue := queue)
    case Freeze => me.(program := g.(stage := Done, frozen := true))
    case Insert(row) => me.(own := me.own + {row}, program := g.(known := g.known + {row}))
  }

  function EnginesFor(c: Content, pick: Pick): set<RowId> {
    var policy := RowId(Policy, pick.policy);
    {RowId(Engine, pick.engine)}
    + (if policy in c && c[policy].PolicyOf? then {RowId(Engine, c[policy].engine)} else {})
  }

  function CredentialRow(pick: Pick): RowId { RowId(Credential, pick.credential) }

  /** The type of the chosen credential. */
  function SlugOf(c: Content, pick: Pick): Option<nat> {
    if CredentialRow(pick) in c && c[CredentialRow(pick)].CredentialOf? then c[CredentialRow(pick)].slug else None
  }

  predicate HasSlug(c: Content, schema: nat, slug: nat) {
    RowId(Schema, schema) in c && c[RowId(Schema, schema)] == SchemaOf(slug)
  }

  /** get_schema: nothing stored for a built-in type, else the row that has the slug now. */
  predicate LooksUp(c: Content, slug: Option<nat>, schema: Option<nat>) {
    if slug.None? then schema.None? else schema.Some? && HasSlug(c, schema.value, slug.value)
  }

  /** The type resolves at all. */
  predicate Resolves(c: Content, slug: Option<nat>) {
    slug.Some? ==> exists r :: r in c && r.kind.Schema? && c[r] == SchemaOf(slug.value)
  }

  predicate ResolverCan(c: Content, gone: set<RowId>, me: Proc, act: ResolverAct)
    requires me.program.Resolver?
  {
    var g := me.program;
    match act
    case PickAssignment(a) =>
      && g.at.Idle? && Matches(c, g.want, a)
      && forall r :: r in c && r.kind.Assignment? && Matches(c, g.want, r.pk) ==> r.pk == a
    case AskPolicy =>
      && g.at.ServiceAsked? && ServiceHeld(me, g.pick.service)
      && RowId(Credential, g.pick.credential) in c && c[RowId(Credential, g.pick.credential)].CredentialOf?
    case AskEngines(queue) =>
      && g.at.PolicyAsked?
      && Allocated(c, gone, me, EnginesFor(c, g.pick)) && Finds(c, me, EnginesFor(c, g.pick), queue)
    case AskCredential => g.at.EnginesAsked?
    case AskAssignment =>
      var credential := RowId(Credential, g.pick.credential);
      && g.at.CredentialAsked?
      && credential in me.held && credential in c && c[credential].CredentialOf?
      && c[credential].policy == g.pick.policy && c[credential].engine == g.pick.engine
      && RowId(Policy, g.pick.policy) in me.held
    case AskSchema(schema) =>
      var a := RowId(Assignment, g.pick.assignment);
      && g.at.AssignmentAsked?
      && a in me.held && a in c && c[a].AssignmentOf? && c[a].credential == g.pick.credential
      && (g.pick.service.Some? ==> Matches(c, g.want, g.pick.assignment))
      && LooksUp(c, SlugOf(c, g.pick), schema)
    case NextPass =>
      && g.at.SchemaAsked? && g.first.None? && Matches(c, g.want, g.pick.assignment)
      && (g.pick.schema.Some? ==> RowId(Schema, g.pick.schema.value) in me.held)
      && Resolves(c, SlugOf(c, g.pick))
  }

  function ResolverNext(c: Content, gone: set<RowId>, me: Proc, act: ResolverAct): Proc
    requires me.program.Resolver? && ResolverCan(c, gone, me, act)
  {
    var g := me.program;
    match act
    case PickAssignment(a) =>
      var row := c[RowId(Assignment, a)];
      me.(program := g.(at := ServiceAsked, pick := Pick(a, row.service, row.credential, 0, 0, None)),
          queue := if row.service.Some? then [RowId(Service, row.service.value)] else [])
    case AskPolicy =>
      var selectors := c[RowId(Credential, g.pick.credential)];
      me.(program := g.(at := PolicyAsked, pick := g.pick.(policy := selectors.policy, engine := selectors.engine)),
          queue := [RowId(Policy, selectors.policy)])
    case AskEngines(queue) => me.(program := g.(at := EnginesAsked), queue := queue)
    case AskCredential => me.(program := g.(at := CredentialAsked), queue := [RowId(Credential, g.pick.credential)])
    case AskAssignment => me.(program := g.(at := AssignmentAsked), queue := [RowId(Assignment, g.pick.assignment)])
    case AskSchema(schema) =>
      me.(program := g.(at := SchemaAsked, pick := g.pick.(schema := schema)),
          queue := if schema.Some? then [RowId(Schema, schema.value)] else [])
    case NextPass => me.(program := g.(at := Idle, first := Some(g.pick)))
  }

  predicate ServiceHeld(me: Proc, service: Option<nat>) {
    service.Some? ==> RowId(Service, service.value) in me.held
  }

  /** A granted lock; a row that vanished meanwhile is skipped. */
  function Locked(c: Content, me: Proc): Proc
    requires me.queue != []
  {
    var r := me.queue[0];
    me.(held := if r in c || r in me.own then me.held + {r} else me.held, queue := me.queue[1..])
  }

  const NOTHING := Pick(0, None, 0, 0, 0, None)

  predicate Enabled(s: Sys, a: Action) {
    match a
    case StartOwner(p) => p !in s.procs
    case StartResolver(p, _) => p !in s.procs
    case Lock(p) =>
      && p in s.procs && s.procs[p].queue != []
      && forall q :: q in s.procs && q != p ==> s.procs[p].queue[0] !in s.procs[q].held
    case End(p) => p in s.procs
    case OwnerDoes(p, act) =>
      && p in s.procs && s.procs[p].program.MaterialOwner? && s.procs[p].queue == []
      && OwnerCan(s.content, s.gone, s.procs[p], act)
      && (act.Insert? ==> Free(s, act.row))
    case ResolverDoes(p, act) =>
      && p in s.procs && s.procs[p].program.Resolver? && s.procs[p].queue == []
      && ResolverCan(s.content, s.gone, s.procs[p], act)
    case Touch(row, data) =>
      && Free(s, row) && (row !in s.content ==> row !in s.gone)
      && (data.Some? && data.value.SchemaOf? ==> forall r :: r in s.content && r != row ==> s.content[r] != data.value)
  }

  function Do(s: Sys, a: Action): Sys
    requires Enabled(s, a)
  {
    match a
    case StartOwner(p) => s.(procs := s.procs[p := Proc(MaterialOwner(Fresh, {}, false, {}), {}, {}, [])])
    case StartResolver(p, want) =>
      s.(procs := s.procs[p := Proc(Resolver(Idle, want, NOTHING, None), {}, {}, [])])
    case Lock(p) => s.(procs := s.procs[p := Locked(s.content, s.procs[p])])
    case End(p) => s.(procs := s.procs - {p})
    case OwnerDoes(p, act) => s.(procs := s.procs[p := OwnerNext(s.procs[p], act)])
    case ResolverDoes(p, act) => s.(procs := s.procs[p := ResolverNext(s.content, s.gone, s.procs[p], act)])
    case Touch(row, data) =>
      if data.Some? then s.(content := s.content[row := data.value])
      else s.(content := s.content - {row}, gone := s.gone + {row})
  }

  // ------------------------------------------------------------------
  // What a resolver asks for and refuses
  // ------------------------------------------------------------------

  /**
   * The row entitles the dispatch: enabled, of the purpose, selected by the
   * reference, on the target or on a service whose parent is the target.
   */
  ghost predicate Entitles(c: Content, w: Want, a: nat) {
    exists credential, service, target, enabled ::
      && RowId(Assignment, a) in c
      && c[RowId(Assignment, a)] == AssignmentOf(credential, service, target, w.purpose, enabled) && enabled
      && w.selector in {ByAssignment(a), ByCredential(credential)}
      && (service == None ==> target == w.target)
      && (service != None ==>
            RowId(Service, service.value) in c && c[RowId(Service, service.value)] == ServiceOf(w.target))
  }

  lemma MatchIff(c: Content, w: Want, a: nat)
    ensures Matches(c, w, a) <==> Entitles(c, w, a)
  {
    if Matches(c, w, a) {
      var row := c[RowId(Assignment, a)];
      assert row == AssignmentOf(row.credential, row.service, row.target, w.purpose, row.enabled);
    }
  }

  /**
   * After every wait the pass goes on only with the columns it followed: a
   * credential whose policy or engine changed, a policy that is gone, or an
   * assignment that names another credential is refused.
   */
  lemma DriftRefused(s: Sys, p: nat, act: ResolverAct)
    requires p in s.procs && s.procs[p].program.Resolver?
    requires var g, c := s.procs[p].program, s.content;
             || (g.at.CredentialAsked?
                 && !(RowId(Credential, g.pick.credential) in c
                      && exists slug ::
                           c[RowId(Credential, g.pick.credential)] == CredentialOf(g.pick.policy, g.pick.engine, slug)))
             || (g.at.CredentialAsked? && RowId(Policy, g.pick.policy) !in s.procs[p].held)
             || (g.at.AssignmentAsked?
                 && !(RowId(Assignment, g.pick.assignment) in c && c[RowId(Assignment, g.pick.assignment)].AssignmentOf?
                      && c[RowId(Assignment, g.pick.assignment)].credential == g.pick.credential))
             || (g.at.SchemaAsked? && !Entitles(c, g.want, g.pick.assignment))
    ensures !Enabled(s, ResolverDoes(p, act))
  {
    var g, c := s.procs[p].program, s.content;
    MatchIff(c, g.want, g.pick.assignment);
    if g.at.CredentialAsked? && RowId(Credential, g.pick.credential) in c
       && c[RowId(Credential, g.pick.credential)].CredentialOf? {
      var k := c[RowId(Credential, g.pick.credential)];
      assert k == CredentialOf(k.policy, k.engine, k.slug);
    }
  }

  /** What a step of a pass asks to lock: the rows named by the columns as they are now. */
  lemma PassRequests(s: Sys, p: nat, act: ResolverAct)
    requires Enabled(s, ResolverDoes(p, act)) && !act.NextPass?
    ensures var g, g', c := s.procs[p].program, Do(s, ResolverDoes(p, act)).procs[p].program, s.content;
            var queue := Do(s, ResolverDoes(p, act)).procs[p].queue;
            && (act.PickAssignment? ==>
                  var row := c[RowId(Assignment, act.a)];
                  && Entitles(c, g.want, act.a) && g'.pick.assignment == act.a && g'.pick.credential == row.credential
                  && g'.pick.service == row.service
                  && (forall r :: r in queue <==> row.service.Some? && r == RowId(Service, row.service.value)))
            && (act.AskPolicy? ==>
                  var row := c[RowId(Credential, g.pick.credential)];
                  g'.pick.policy == row.policy && g'.pick.engine == row.engine && queue == [RowId(Policy, row.policy)])
            && (act.AskEngines? ==>
                  forall r :: r in queue <==>
                    (&& (r in c || r in s.procs[p].own)
                     && (r == RowId(Engine, g.pick.engine)
                         || (RowId(Policy, g.pick.policy) in c && c[RowId(Policy, g.pick.policy)].PolicyOf?
                             && r == RowId(Engine, c[RowId(Policy, g.pick.policy)].engine)))))
            && (act.AskCredential? ==> queue == [RowId(Credential, g.pick.credential)])
            && (act.AskAssignment? ==> queue == [RowId(Assignment, g.pick.assignment)])
            && (act.AskSchema? ==>
                  forall r :: r in queue <==> act.schema.Some? && r == RowId(Schema, act.schema.value))
            && Ascending(queue)
  {
    if act.PickAssignment? {
      MatchIff(s.content, s.procs[p].program.want, act.a);
    }
  }

  // ------------------------------------------------------------------
  // Waiting in a circle
  // ------------------------------------------------------------------

  predicate Waits(s: Sys, p: nat, q: nat) {
    && p in s.procs && q in s.procs && p != q
    && s.procs[p].queue != [] && s.procs[p].queue[0] in s.procs[q].held
  }

  /** The neighbour around a ring. */
  function NextIn(c: seq<nat>, i: nat): nat
    requires i < |c|
  {
    c[if i + 1 < |c| then i + 1 else 0]
  }

  ghost predicate Circle(s: Sys, c: seq<nat>) {
    |c| >= 2 && forall i {:trigger NextIn(c, i)} :: 0 <= i < |c| ==> Waits(s, c[i], NextIn(c, i))
  }

  /** Anything still to be locked comes after everything held, or is ours already. */
  ghost predicate InOrder(me: Proc) {
    && Ascending(me.queue)
    && (forall i :: 0 <= i < |me.queue| ==>
          me.queue[i] in me.held || me.queue[i] in me.own || forall h :: h in me.held ==> Before(h, me.queue[i]))
  }

  ghost predicate Exclusive(s: Sys) {
    && (forall p, q :: p in s.procs && q in s.procs && p != q ==> s.procs[p].held !! s.procs[q].held)
    && (forall p, q :: p in s.procs && q in s.procs && p != q ==> s.procs[p].own !! s.procs[q].held)
  }

  function Wanted(s: Sys, p: nat): RowId {
    if p in s.procs && s.procs[p].queue != [] then s.procs[p].queue[0] else RowId(TargetObject, 0)
  }

  lemma {:induction false} RanksGrow(s: Sys, c: seq<nat>, i: nat)
    requires Exclusive(s) && Circle(s, c) && i < |c|
    requires forall j :: 0 <= j < |c| ==> c[j] in s.procs && InOrder(s.procs[c[j]])
    ensures i > 0 ==> Before(Wanted(s, c[0]), Wanted(s, c[i]))
  {
    if i > 0 {
      RanksGrow(s, c, i - 1);
      assert NextIn(c, i - 1) == c[i] && Waits(s, c[i], NextIn(c, i));
      WaiterAbove(s, c[i - 1], c[i], NextIn(c, i));
    }
  }

  lemma WaiterAbove(s: Sys, p: nat, q: nat, r: nat)
    requires Exclusive(s) && Waits(s, p, q) && Waits(s, q, r) && InOrder(s.procs[q])
    ensures Before(Wanted(s, p), Wanted(s, q))
  {
  }

  /** Ordered locking leaves no circle of waiting transactions. */
  lemma NoCircle(s: Sys, c: seq<nat>)
    requires Exclusive(s) && |c| > 0 && (forall j :: 0 <= j < |c| ==> c[j] in s.procs && InOrder(s.procs[c[j]]))
    ensures !Circle(s, c)
  {
    if Circle(s, c) {
      RanksGrow(s, c, |c| - 1);
      assert NextIn(c, |c| - 1) == c[0] && NextIn(c, 0) == c[1];
      WaiterAbove(s, c[|c| - 1], c[0], c[1]);
    }
  }

  // ------------------------------------------------------------------
  // What the programs keep
  // ------------------------------------------------------------------

  ghost predicate UpTo(me: Proc, bound: nat) {
    (forall h :: h in me.held ==> Rank(h.kind) <= bound) && (forall r :: r in me.queue ==> Rank(r.kind) <= bound)
  }

  function OwnerBound(stage: OwnerStage): nat {
    match stage
    case Fresh => 0
    case AtTarget => 0
    case AtService => 1
    case AtPolicies => 2
    case AtEngines => 3
    case AtCredentials => 4
    case Done => 4
  }

  /** Every known row of this kind is locked, about to be, or no longer exists. */
  ghost predicate Covered(me: Proc, rows: set<RowId>, k: Kind, gone: set<RowId>) {
    forall r :: r in rows && r.kind == k ==> r in me.held || r in me.queue || r in gone
  }

  ghost predicate OwnerOK(c: Content, gone: set<RowId>, me: Proc)
    requires me.program.MaterialOwner?
  {
    var g := me.program;
    OfKind(g.credentials, Credential) &&
    (forall r :: r in g.credentials ==> r in c || r in me.own || r in gone) &&
    if g.frozen then
      && !g.stage.Fresh? && !g.stage.AtTarget? && !g.stage.AtService?
      && (forall r :: r in g.known ==> r in me.held || r in me.own || r in gone)
      && (forall r :: r in me.queue ==> r in me.held || r in me.own)
      && g.credentials <= g.known
    else
      && me.own == {}
      && UpTo(me, OwnerBound(g.stage))
      && (g.stage.Fresh? ==> me.held == {} && me.queue == [])
      && g.credentials <= g.known
      && (forall r :: r in g.known ==> r.kind.Policy? || r.kind.Engine? || r.kind.Credential?)
      && (forall r :: r in g.known && r.kind.Credential? ==> r in g.credentials)
      && (Rank(Policy) <= OwnerBound(g.stage) && !g.stage.Done? ==> Covered(me, g.known, Policy, gone))
      && (Rank(Engine) <= OwnerBound(g.stage) && !g.stage.Done? ==> Covered(me, g.known, Engine, gone))
      && (g.stage.AtCredentials? ==> Covered(me, g.known, Credential, gone))
      && (Rank(Policy) > OwnerBound(g.stage) ==> g.known == {})
      && (g.stage.AtPolicies? ==> forall r :: r in g.known ==> !r.kind.Engine?)
  }

  function ResolverBound(at: ResolverStage): nat {
    match at
    case Idle => 0
    case ServiceAsked => 1
    case PolicyAsked => 2
    case EnginesAsked => 3
    case CredentialAsked => 4
    case AssignmentAsked => 5
    case SchemaAsked => 6
  }

  /** The rows and columns a pass has pinned down by the time it asks for the assignment. */
  ghost predicate GraphHeld(c: Content, gone: set<RowId>, me: Proc, pick: Pick) {
    var credential := RowId(Credential, pick.credential);
    && ServiceHeld(me, pick.service)
    && RowId(Policy, pick.policy) in me.held
    && credential in me.held && credential in c && c[credential].CredentialOf?
    && c[credential].policy == pick.policy && c[credential].engine == pick.engine
    && (forall r :: r in EnginesFor(c, pick) ==> r in me.held || r in gone)
  }

  ghost predicate AssignmentHeld(c: Content, me: Proc, pick: Pick) {
    var a := RowId(Assignment, pick.assignment);
    a in me.held && a in c && c[a].AssignmentOf? && c[a].credential == pick.credential
  }

  /** The service the assignment hangs off now, if any, is one the transaction has locked. */
  predicate Anchored(c: Content, me: Proc, assignment: nat) {
    var a := RowId(Assignment, assignment);
    a in c && c[a].AssignmentOf? ==> ServiceHeld(me, c[a].service)
  }

  /** The pass has a schema to lock exactly when the type is a stored one. */
  ghost predicate Typed(c: Content, pick: Pick) {
    pick.schema.Some? <==> SlugOf(c, pick).Some?
  }

  predicate IsSchema(r: RowId, schema: Option<nat>) {
    schema.Some? && r == RowId(Schema, schema.value)
  }

  ghost predicate FirstPassOK(c: Content, gone: set<RowId>, me: Proc)
    requires me.program.Resolver?
  {
    var g := me.program;
    && UpTo(me, ResolverBound(g.at))
    && (forall r :: r in me.queue ==>
          Rank(r.kind) == ResolverBound(g.at) && (r.kind.Assignment? ==> r.pk == g.pick.assignment))
    && (forall r :: (r in me.queue || r in me.held) && r.kind.Schema? ==> IsSchema(r, g.pick.schema))
    && (g.at.Idle? ==> me.held == {} && me.queue == [])
    && (ResolverBound(g.at) >= 2 ==> ServiceHeld(me, g.pick.service))
    && (ResolverBound(g.at) >= 3 && RowId(Policy, g.pick.policy) in me.held ==>
          forall r :: r in EnginesFor(c, g.pick) ==> r in me.held || r in me.queue || r in gone)
    && (ResolverBound(g.at) >= 5 ==> GraphHeld(c, gone, me, g.pick))
    && (g.at.SchemaAsked? ==> AssignmentHeld(c, me, g.pick) && Typed(c, g.pick))
    && (forall r :: r in me.held && r.kind.Assignment? ==> r.pk == g.pick.assignment)
  }

  /** What the first pass leaves to the second. */
  ghost predicate Carried(c: Content, gone: set<RowId>, me: Proc, want: Want, f: Pick) {
    && GraphHeld(c, gone, me, f) && AssignmentHeld(c, me, f) && Typed(c, f)
    && Matches(c, want, f.assignment) && Anchored(c, me, f.assignment)
    && (f.schema.Some? ==> RowId(Schema, f.schema.value) in me.held)
    && (forall r :: r in me.held && r.kind.Assignment? ==> r.pk == f.assignment)
  }

  ghost predicate SecondPassOK(c: Content, gone: set<RowId>, me: Proc)
    requires me.program.Resolver? && me.program.first.Some?
  {
    var g := me.program;
    var f := g.first.value;
    && Carried(c, gone, me, g.want, f)
    && (forall h :: h in me.held && h.kind.Schema? ==>
          IsSchema(h, f.schema) || (g.at.SchemaAsked? && me.queue == [] && IsSchema(h, g.pick.schema)))
    && (!g.at.Idle? ==>
          && g.pick.assignment == f.assignment && g.pick.credential == f.credential
          && g.pick.service == c[RowId(Assignment, f.assignment)].service)
    && (ResolverBound(g.at) >= 2 ==> g.pick.policy == f.policy && g.pick.engine == f.engine)
    && (if g.at.SchemaAsked?
        then me.queue == [] || (g.pick.schema.Some? && me.queue == [RowId(Schema, g.pick.schema.value)])
        else forall r :: r in me.queue ==> r in me.held)
  }

  /** A second pass that has asked for a schema: the one request that need not come in order. */
  predicate AsksSchema(me: Proc) {
    me.program.Resolver? && me.program.first.Some? && me.program.at.SchemaAsked?
  }

  ghost predicate QueueKnown(c: Content, gone: set<RowId>, me: Proc) {
    forall r :: r in me.queue && (me.program.MaterialOwner? || r.kind.Engine?) ==> r in c || r in me.own || r in gone
  }

  ghost predicate ProcOK(c: Content, gone: set<RowId>, me: Proc) {
    && (InOrder(me) || AsksSchema(me))
    && QueueKnown(c, gone, me)
    && (forall r :: r in me.held ==> r in c || r in me.own)
    && (me.program.MaterialOwner? ==> OwnerOK(c, gone, me))
    && (me.program.Resolver? ==>
          me.own == {} && if me.program.first.None? then FirstPassOK(c, gone, me) else SecondPassOK(c, gone, me))
  }

  /** Slugs are unique. */
  predicate SlugsDiffer(c: Content) {
    forall r, q :: r in c && q in c && r != q && c[r].SchemaOf? ==> c[r] != c[q]
  }

  /** Locks are exclusive, deleted rows stay deleted, and inserted rows are nobody else's. */
  ghost predicate Framed(s: Sys) {
    && Exclusive(s)
    && (forall r :: r in s.content ==> r !in s.gone)
    && SlugsDiffer(s.content)
    && (forall p :: p in s.procs ==> s.procs[p].own !! s.content.Keys && s.procs[p].own !! s.gone)
    && (forall p, q :: p in s.procs && q in s.procs && p != q ==> s.procs[p].own !! s.procs[q].own)
  }

  ghost predicate Fine(s: Sys, p: nat) {
    p in s.procs ==> ProcOK(s.content, s.gone, s.procs[p])
  }

  ghost predicate Good(s: Sys) {
    Framed(s) && (forall p {:trigger Fine(s, p)} :: Fine(s, p))
  }

  predicate Early(me: Proc) {
    me.program.MaterialOwner? || me.program.first.None?
  }

  ghost predicate EarlyFine(s: Sys, p: nat) {
    p in s.procs && Early(s.procs[p]) ==> ProcOK(s.content, s.gone, s.procs[p])
  }

  /** The invariant of the owners and the first passes alone. */
  ghost predicate EarlyGood(s: Sys) {
    Framed(s) && (forall p {:trigger EarlyFine(s, p)} :: EarlyFine(s, p))
  }

  /** The step begins a second pass. */
  predicate Begins(a: Action) {
    a.ResolverDoes? && a.resolver.NextPass?
  }

  /** A second pass begins only with its assignment on a service it has locked, or on none. */
  predicate Moored(s: Sys, a: Action)
    requires Enabled(s, a)
  {
    Begins(a) ==> Anchored(s.content, s.procs[a.p], s.procs[a.p].program.pick.assignment)
  }

  /** And only with its type still naming the schema it has locked. */
  predicate Steady(s: Sys, a: Action)
    requires Enabled(s, a)
  {
    && Moored(s, a)
    && (Begins(a) ==>
          var pick := s.procs[a.p].program.pick;
          LooksUp(s.content, SlugOf(s.content, pick), pick.schema))
  }

  lemma LockInOrder(c: Content, me: Proc)
    requires InOrder(me) && me.queue != []
    ensures InOrder(Locked(c, me))
  {
    var me' := Locked(c, me);
    forall i | 0 <= i < |me'.queue|
      ensures me'.queue[i] in me'.held || me'.queue[i] in me'.own
              || forall h :: h in me'.held ==> Before(h, me'.queue[i])
    {
      assert me'.queue[i] == me.queue[i + 1];
      assert Before(me.queue[0], me.queue[i + 1]);
    }
  }

  lemma LockKeepsOwner(c: Content, gone: set<RowId>, me: Proc)
    requires ProcOK(c, gone, me) && me.queue != [] && me.program.MaterialOwner?
    ensures ProcOK(c, gone, Locked(c, me))
  {
    LockInOrder(c, me);
    var me' := Locked(c, me);
    assert forall r :: r in me.queue ==> r == me.queue[0] || r in me'.queue;
    assert forall r :: r in me'.queue ==> r in me.queue;
  }

  lemma LockKeepsFirst(c: Content, gone: set<RowId>, me: Proc)
    requires ProcOK(c, gone, me) && me.queue != [] && me.program.Resolver? && me.program.first.None?
    ensures ProcOK(c, gone, Locked(c, me))
  {
    LockInOrder(c, me);
    var me' := Locked(c, me);
    assert forall r :: r in me.queue ==> r == me.queue[0] || r in me'.queue;
    assert forall r :: r in me'.queue ==> r in me.queue;
    assert RowId(Policy, me.program.pick.policy) in me'.held && ResolverBound(me.program.at) >= 3 ==>
        RowId(Policy, me.program.pick.policy) in me.held;
  }

  lemma LockKeepsSecond(c: Content, gone: set<RowId>, me: Proc)
    requires ProcOK(c, gone, me) && me.queue != [] && me.program.Resolver? && me.program.first.Some?
    ensures ProcOK(c, gone, Locked(c, me))
  {
    if !me.program.at.SchemaAsked? {
      LockInOrder(c, me);
    }
    var me' := Locked(c, me);
    assert forall r :: r in me'.queue ==> r in me.queue;
  }

  lemma QueueAfter(me: Proc, me': Proc, bound: nat)
    requires me'.held == me.held && me'.own == me.own && Ascending(me'.queue)
    requires forall h :: h in me.held ==> Rank(h.kind) < bound
    requires forall r :: r in me'.queue ==> Rank(r.kind) == bound
    ensures InOrder(me')
  {
  }

  lemma QueueHeld(me: Proc, me': Proc)
    requires me'.held == me.held && me'.own == me.own && Ascending(me'.queue)
    requires forall r :: r in me'.queue ==> r in me.held || r in me.own
    ensures InOrder(me')
  {
  }

  lemma EarlyOwnerStep(c: Content, gone: set<RowId>, me: Proc, act: OwnerAct)
    requires ProcOK(c, gone, me) && me.program.MaterialOwner? && me.queue == [] && OwnerCan(c, gone, me, act)
    requires act.LockTarget? || act.LockService? || act.LinkCredential?
    ensures ProcOK(c, gone, OwnerNext(me, act))
  {
    var me' := OwnerNext(me, act);
    assert forall r :: r in me'.queue ==> r == me'.queue[0];
    QueueAfter(me, me', Rank(me'.queue[0].kind));
  }

  lemma DeclareStep(c: Content, gone: set<RowId>, me: Proc, act: OwnerAct)
    requires ProcOK(c, gone, me) && me.program.MaterialOwner? && me.queue == [] && OwnerCan(c, gone, me, act)
    requires act.Declare? || act.DeclareEngines? || act.AskCredentials?
    requires (forall r :: r in c ==> r !in gone) && me.own !! gone
    ensures ProcOK(c, gone, OwnerNext(me, act))
  {
    var me' := OwnerNext(me, act);
    if me.program.frozen {
      QueueHeld(me, me');
    } else {
      QueueAfter(me, me', if act.Declare? then 2 else if act.DeclareEngines? then 3 else 4);
    }
  }

  lemma LateOwnerStep(c: Content, gone: set<RowId>, me: Proc, act: OwnerAct)
    requires ProcOK(c, gone, me) && me.program.MaterialOwner? && me.queue == [] && OwnerCan(c, gone, me, act)
    requires act.Freeze? || act.Insert?
    ensures ProcOK(c, gone, OwnerNext(me, act))
  {
  }

  lemma OwnerStep(c: Content, gone: set<RowId>, me: Proc, act: OwnerAct)
    requires ProcOK(c, gone, me) && me.program.MaterialOwner? && me.queue == [] && OwnerCan(c, gone, me, act)
    requires (forall r :: r in c ==> r !in gone) && me.own !! gone
    ensures ProcOK(c, gone, OwnerNext(me, act))
  {
    if act.LockTarget? || act.LockService? || act.LinkCredential? {
      EarlyOwnerStep(c, gone, me, act);
    } else if act.Freeze? || act.Insert? {
      LateOwnerStep(c, gone, me, act);
    } else {
      DeclareStep(c, gone, me, act);
    }
  }

  lemma FirstPassAsks(c: Content, gone: set<RowId>, me: Proc, act: ResolverAct)
    requires ProcOK(c, gone, me) && me.program.Resolver? && me.queue == [] && ResolverCan(c, gone, me, act)
    requires me.program.first.None? && !act.AskSchema? && !act.AskEngines? && !act.NextPass?
    ensures ProcOK(c, gone, ResolverNext(c, gone, me, act))
  {
    var me' := ResolverNext(c, gone, me, act);
    QueueAfter(me, me', ResolverBound(me'.program.at));
  }

  lemma FirstPassEngines(c: Content, gone: set<RowId>, me: Proc, queue: seq<RowId>)
    requires ProcOK(c, gone, me) && me.program.Resolver? && me.queue == [] && me.program.first.None?
    requires ResolverCan(c, gone, me, AskEngines(queue))
    ensures ProcOK(c, gone, ResolverNext(c, gone, me, AskEngines(queue)))
  {
    QueueAfter(me, ResolverNext(c, gone, me, AskEngines(queue)), 3);
  }

  lemma FirstPassSchema(c: Content, gone: set<RowId>, me: Proc, schema: Option<nat>)
    requires ProcOK(c, gone, me) && me.program.Resolver? && me.queue == [] && me.program.first.None?
    requires ResolverCan(c, gone, me, AskSchema(schema))
    ensures ProcOK(c, gone, ResolverNext(c, gone, me, AskSchema(schema)))
  {
    var me' := ResolverNext(c, gone, me, AskSchema(schema));
    QueueAfter(me, me', 6);
    assert AssignmentHeld(c, me', me'.program.pick);
  }

  /** The first pass ends with everything the second will ask for. */
  lemma FirstPassEnds(c: Content, gone: set<RowId>, me: Proc)
    requires ProcOK(c, gone, me) && me.program.Resolver? && me.queue == [] && me.program.first.None?
    requires ResolverCan(c, gone, me, NextPass) && Anchored(c, me, me.program.pick.assignment)
    ensures ProcOK(c, gone, ResolverNext(c, gone, me, NextPass))
  {
  }

  lemma FirstPassStep(c: Content, gone: set<RowId>, me: Proc, act: ResolverAct)
    requires ProcOK(c, gone, me) && me.program.Resolver? && me.queue == [] && ResolverCan(c, gone, me, act)
    requires me.program.first.None? && (act.NextPass? ==> Anchored(c, me, me.program.pick.assignment))
    ensures ProcOK(c, gone, ResolverNext(c, gone, me, act))
  {
    if act.AskEngines? {
      FirstPassEngines(c, gone, me, act.queue);
    } else if act.AskSchema? {
      FirstPassSchema(c, gone, me, act.schema);
    } else if act.NextPass? {
      FirstPassEnds(c, gone, me);
    } else {
      FirstPassAsks(c, gone, me, act);
    }
  }

  /** The pinned columns leave the second pass no other rows to ask for. */
  lemma SecondPassStep(c: Content, gone: set<RowId>, me: Proc, act: ResolverAct)
    requires ProcOK(c, gone, me) && me.program.Resolver? && me.queue == [] && ResolverCan(c, gone, me, act)
    requires me.program.first.Some? && (forall r :: r in c ==> r !in gone)
    ensures ProcOK(c, gone, ResolverNext(c, gone, me, act))
  {
    var me' := ResolverNext(c, gone, me, act);
    var f := me.program.first.value;
    match act
    case PickAssignment(a) =>
      assert RowId(Assignment, f.assignment) in c;
      assert a == f.assignment;
      QueueHeld(me, me');
    case AskSchema(schema) => assert AsksSchema(me');
    case _ => QueueHeld(me, me');
  }

  lemma TouchedProc(c: Content, gone: set<RowId>, me: Proc, row: RowId, data: Option<Data>)
    requires ProcOK(c, gone, me) && row !in me.held && row !in me.own
    ensures ProcOK(if data.Some? then c[row := data.value] else c - {row},
                   if data.Some? then gone else gone + {row}, me)
  {
  }

  /** Replacing one process by another with the same locks, or with free rows added. */
  lemma Swap(s: Sys, p: nat, me: Proc)
    requires Framed(s) && p in s.procs
    requires forall r :: r in me.held && r !in s.procs[p].held ==>
               (r in s.content || r in me.own) && forall q :: q in s.procs && q != p ==> r !in s.procs[q].held
    requires forall r :: r in me.own && r !in s.procs[p].own ==> Free(s, r) && r !in s.content && r !in s.gone
    ensures Framed(s.(procs := s.procs[p := me]))
  {
  }

  lemma FramedTouch(s: Sys, row: RowId, data: Option<Data>)
    requires Framed(s) && Enabled(s, Touch(row, data))
    ensures Framed(Do(s, Touch(row, data)))
  {
  }

  /** Every step of every program keeps the locks exclusive. */
  lemma FramedDo(s: Sys, a: Action)
    requires Framed(s) && Enabled(s, a)
    ensures Framed(Do(s, a))
  {
    match a
    case Lock(p) => Swap(s, p, Locked(s.content, s.procs[p]));
    case OwnerDoes(p, act) => Swap(s, p, OwnerNext(s.procs[p], act));
    case ResolverDoes(p, act) => Swap(s, p, ResolverNext(s.content, s.gone, s.procs[p], act));
    case Touch(row, data) => FramedTouch(s, row, data);
    case _ =>
  }

  lemma EarlyLockStep(s: Sys, p: nat)
    requires EarlyGood(s) && Enabled(s, Lock(p)) && Early(s.procs[p])
    ensures ProcOK(s.content, s.gone, Locked(s.content, s.procs[p]))
  {
    assert EarlyFine(s, p);
    if s.procs[p].program.MaterialOwner? {
      LockKeepsOwner(s.content, s.gone, s.procs[p]);
    } else {
      LockKeepsFirst(s.content, s.gone, s.procs[p]);
    }
  }

  lemma TouchStep(s: Sys, row: RowId, data: Option<Data>, p: nat)
    requires Enabled(s, Touch(row, data)) && p in s.procs && ProcOK(s.content, s.gone, s.procs[p])
    ensures var s' := Do(s, Touch(row, data)); ProcOK(s'.content, s'.gone, s'.procs[p])
  {
    TouchedProc(s.content, s.gone, s.procs[p], row, data);
  }

  lemma StartsFine(c: Content, gone: set<RowId>, want: Want)
    ensures ProcOK(c, gone, Proc(MaterialOwner(Fresh, {}, false, {}), {}, {}, []))
    ensures ProcOK(c, gone, Proc(Resolver(Idle, want, NOTHING, None), {}, {}, []))
  {
  }

  lemma EarlyResolverStep(s: Sys, p: nat, act: ResolverAct)
    requires EarlyGood(s) && Enabled(s, ResolverDoes(p, act)) && Early(s.procs[p]) && !act.NextPass?
    ensures ProcOK(s.content, s.gone, ResolverNext(s.content, s.gone, s.procs[p], act))
  {
    assert EarlyFine(s, p);
    FirstPassStep(s.content, s.gone, s.procs[p], act);
  }

  /** The process a step moves. */
  lemma EarlyMover(s: Sys, a: Action, p: nat)
    requires EarlyGood(s) && Enabled(s, a) && !a.Touch? && p in Do(s, a).procs && Early(Do(s, a).procs[p]) && p == a.p
    ensures ProcOK(s.content, s.gone, Do(s, a).procs[p])
  {
    match a
    case StartOwner(_) => StartsFine(s.content, s.gone, Want(0, 0, ByAssignment(0)));
    case StartResolver(_, want) => StartsFine(s.content, s.gone, want);
    case Lock(_) => EarlyLockStep(s, p);
    case OwnerDoes(_, act) =>
      assert EarlyFine(s, p);
      OwnerStep(s.content, s.gone, s.procs[p], act);
    case ResolverDoes(_, act) => EarlyResolverStep(s, p, act);
    case End(_) =>
  }

  /** Every step of every program, drift or not, keeps owners and first passes in order. */
  lemma EarlyDo(s: Sys, a: Action)
    requires EarlyGood(s) && Enabled(s, a)
    ensures EarlyGood(Do(s, a))
  {
    FramedDo(s, a);
    forall p
      ensures EarlyFine(Do(s, a), p)
    {
      if p in Do(s, a).procs && Early(Do(s, a).procs[p]) {
        if a.Touch? {
          assert EarlyFine(s, p);
          TouchStep(s, a.row, a.data, p);
        } else if p == a.p {
          EarlyMover(s, a, p);
        } else {
          assert EarlyFine(s, p);
        }
      }
    }
  }

  lemma LockStep(s: Sys, p: nat)
    requires Good(s) && Enabled(s, Lock(p))
    ensures ProcOK(s.content, s.gone, Locked(s.content, s.procs[p]))
  {
    var me := s.procs[p];
    assert Fine(s, p);
    if me.program.MaterialOwner? {
      LockKeepsOwner(s.content, s.gone, me);
    } else if me.program.first.None? {
      LockKeepsFirst(s.content, s.gone, me);
    } else {
      LockKeepsSecond(s.content, s.gone, me);
    }
  }

  lemma ResolverStep(s: Sys, p: nat, act: ResolverAct)
    requires Good(s) && Enabled(s, ResolverDoes(p, act)) && Moored(s, ResolverDoes(p, act))
    ensures ProcOK(s.content, s.gone, ResolverNext(s.content, s.gone, s.procs[p], act))
  {
    assert Fine(s, p);
    if s.procs[p].program.first.None? {
      FirstPassStep(s.content, s.gone, s.procs[p], act);
    } else {
      SecondPassStep(s.content, s.gone, s.procs[p], act);
    }
  }

  lemma Mover(s: Sys, a: Action)
    requires Good(s) && Enabled(s, a) && Moored(s, a) && !a.Touch? && a.p in Do(s, a).procs
    ensures ProcOK(s.content, s.gone, Do(s, a).procs[a.p])
  {
    match a
    case StartOwner(_) => StartsFine(s.content, s.gone, Want(0, 0, ByAssignment(0)));
    case StartResolver(_, want) => StartsFine(s.content, s.gone, want);
    case Lock(p) => LockStep(s, p);
    case OwnerDoes(p, act) =>
      assert Fine(s, p);
      OwnerStep(s.content, s.gone, s.procs[p], act);
    case ResolverDoes(p, act) => ResolverStep(s, p, act);
    case End(_) =>
  }

  /** Every step of every program keeps the invariant, unless a second pass begins adrift. */
  lemma GoodDo(s: Sys, a: Action)
    requires Good(s) && Enabled(s, a) && Moored(s, a)
    ensures Good(Do(s, a))
  {
    FramedDo(s, a);
    forall p
      ensures Fine(Do(s, a), p)
    {
      if p in Do(s, a).procs {
        if a.Touch? {
          assert Fine(s, p);
          TouchStep(s, a.row, a.data, p);
        } else if p == a.p {
          Mover(s, a);
        } else {
          assert Fine(s, p);
        }
      }
    }
  }

  predicate Legal(s: Sys, run: seq<Action>)
    decreases |run|
  {
    run == [] || (Enabled(s, run[0]) && Legal(Do(s, run[0]), run[1..]))
  }

  function After(s: Sys, run: seq<Action>): Sys
    requires Legal(s, run)
    decreases |run|
  {
    if run == [] then s else After(Do(s, run[0]), run[1..])
  }

  /** No delivery of the run begins its second pass with its assignment on an unlocked service. */
  predicate MooredRun(s: Sys, run: seq<Action>)
    requires Legal(s, run)
    decreases |run|
  {
    run == [] || (Moored(s, run[0]) && MooredRun(Do(s, run[0]), run[1..]))
  }

  /** Nor with its type naming another schema than the one it has locked. */
  predicate Sheltered(s: Sys, run: seq<Action>)
    requires Legal(s, run)
    decreases |run|
  {
    run == [] || (Steady(s, run[0]) && Sheltered(Do(s, run[0]), run[1..]))
  }

  predicate Quiet(s: Sys) {
    && s.procs == map[] && (forall r :: r in s.content ==> r !in s.gone)
    && SlugsDiffer(s.content)
  }

  lemma {:induction false} GoodRun(s: Sys, run: seq<Action>)
    requires Good(s) && Legal(s, run) && MooredRun(s, run)
    ensures Good(After(s, run))
    decreases |run|
  {
    if run != [] {
      GoodDo(s, run[0]);
      GoodRun(Do(s, run[0]), run[1..]);
    }
  }

  lemma {:induction false} ShelteredIsMoored(s: Sys, run: seq<Action>)
    requires Legal(s, run) && Sheltered(s, run)
    ensures MooredRun(s, run)
    decreases |run|
  {
    if run != [] {
      ShelteredIsMoored(Do(s, run[0]), run[1..]);
    }
  }

  lemma {:induction false} EarlyRun(s: Sys, run: seq<Action>)
    requires EarlyGood(s) && Legal(s, run)
    ensures EarlyGood(After(s, run))
    decreases |run|
  {
    if run != [] {
      EarlyDo(s, run[0]);
      EarlyRun(Do(s, run[0]), run[1..]);
    }
  }

  /** In every run, after the freeze a lock call waits for nobody: it asks only for rows the owner has or inserted. */
  lemma FrozenOwnerNeverWaits(s: Sys, run: seq<Action>, p: nat, q: nat)
    requires Quiet(s) && Legal(s, run)
    requires var s' := After(s, run);
             p in s'.procs && s'.procs[p].program.MaterialOwner? && s'.procs[p].program.frozen
    ensures !Waits(After(s, run), p, q)
    ensures var me := After(s, run).procs[p];
            forall r :: r in me.queue ==> r in me.held || r in me.own
  {
    EarlyRun(s, run);
    assert EarlyFine(After(s, run), p);
  }

  /** In a run without a service drift, a second pass waits only for a schema it did not lock before. */
  lemma SecondPassWaitsAtTheEnd(s: Sys, run: seq<Action>, p: nat, q: nat)
    requires Quiet(s) && Legal(s, run) && MooredRun(s, run)
    requires var s' := After(s, run);
             p in s'.procs && s'.procs[p].program.Resolver? && s'.procs[p].program.first.Some?
    ensures Waits(After(s, run), p, q) ==> Wanted(After(s, run), p).kind == Schema
  {
    GoodRun(s, run);
    assert Fine(After(s, run), p);
  }

  // ------------------------------------------------------------------
  // Second passes whose types name each other's schemas
  // ------------------------------------------------------------------

  /** A second pass that holds a schema from its first. */
  predicate Second(s: Sys, p: nat) {
    && p in s.procs && s.procs[p].program.Resolver? && s.procs[p].program.first.Some?
    && s.procs[p].program.first.value.schema.Some?
  }

  function FirstSchema(s: Sys, p: nat): nat
    requires Second(s, p)
  {
    s.procs[p].program.first.value.schema.value
  }

  /**
   * The second pass has asked for the schema the other delivery locked in its
   * first, or has yet to ask and its type is that schema's slug.
   */
  ghost predicate Names(s: Sys, p: nat, q: nat) {
    && p != q && Second(s, p) && Second(s, q)
    && if s.procs[p].program.at.SchemaAsked?
       then s.procs[p].queue == [RowId(Schema, FirstSchema(s, q))]
       else
         var slug := SlugOf(s.content, s.procs[p].program.first.value);
         slug.Some? && HasSlug(s.content, FirstSchema(s, q), slug.value)
  }

  ghost predicate NamingCircle(s: Sys, c: seq<nat>) {
    |c| >= 2 && forall i {:trigger NextIn(c, i)} :: 0 <= i < |c| ==> Names(s, c[i], NextIn(c, i))
  }

  /** What is waited for never ranks below what others wait for from the waiter. */
  lemma KindsClimb(s: Sys, p: nat, q: nat, r: nat)
    requires Good(s) && Waits(s, p, q) && Waits(s, q, r)
    ensures Rank(Wanted(s, p).kind) <= Rank(Wanted(s, q).kind)
  {
    assert Fine(s, q);
    if InOrder(s.procs[q]) {
      WaiterAbove(s, p, q, r);
    }
  }

  function Heights(s: Sys, c: seq<nat>): seq<nat> {
    seq(|c|, (i: nat) requires i < |c| => Rank(Wanted(s, c[i]).kind))
  }

  /** Heights that never fall around a ring are all the same. */
  ghost predicate Climbs(h: seq<nat>) {
    (forall i :: 0 <= i < |h| - 1 ==> h[i] <= h[i + 1]) && (h != [] ==> h[|h| - 1] <= h[0])
  }

  lemma {:induction false} ClimbsTo(h: seq<nat>, i: nat, j: nat)
    requires Climbs(h) && i <= j < |h|
    ensures h[i] <= h[j]
    decreases j - i
  {
    if i < j {
      ClimbsTo(h, i, j - 1);
    }
  }

  lemma ClimbsAt(s: Sys, c: seq<nat>, i: nat)
    requires Good(s) && Circle(s, c) && i < |c|
    ensures Heights(s, c)[i] <= Heights(s, c)[if i + 1 < |c| then i + 1 else 0]
  {
    var j := if i + 1 < |c| then i + 1 else 0;
    assert NextIn(c, i) == c[j] && Waits(s, c[j], NextIn(c, j));
    KindsClimb(s, c[i], c[j], NextIn(c, j));
  }

  lemma CircleClimbs(s: Sys, c: seq<nat>)
    requires Good(s) && Circle(s, c)
    ensures Climbs(Heights(s, c))
  {
    var h := Heights(s, c);
    forall i | 0 <= i < |h| - 1
      ensures h[i] <= h[i + 1]
    {
      ClimbsAt(s, c, i);
    }
    ClimbsAt(s, c, |c| - 1);
  }

  lemma KindsAgree(s: Sys, c: seq<nat>, i: nat)
    requires Climbs(Heights(s, c)) && i < |c|
    ensures Rank(Wanted(s, c[i]).kind) == Rank(Wanted(s, c[0]).kind)
  {
    var h := Heights(s, c);
    ClimbsTo(h, 0, i);
    ClimbsTo(h, i, |h| - 1);
    assert h[i] == h[0];
  }

  /** A transaction that holds a schema others wait for, and waits for one itself, is a second pass. */
  lemma SchemaWaiter(s: Sys, p: nat, q: nat, r: nat)
    requires Good(s) && Waits(s, p, q) && Waits(s, q, r)
    requires Wanted(s, p).kind == Schema && Wanted(s, q).kind == Schema
    ensures AsksSchema(s.procs[q]) && Second(s, q) && Wanted(s, p) == RowId(Schema, FirstSchema(s, q))
    ensures s.procs[q].queue == [Wanted(s, q)]
  {
    var me := s.procs[q];
    assert Fine(s, q);
    assert me.queue[0] !in me.held && me.queue[0] !in me.own;
    assert Wanted(s, p) in me.held;
  }

  lemma NamesNext(s: Sys, c: seq<nat>, i: nat)
    requires Good(s) && Circle(s, c) && i < |c| && Wanted(s, c[0]).kind == Schema
    ensures Names(s, c[i], NextIn(c, i))
  {
    var prior, next := if i > 0 then i - 1 else |c| - 1, if i + 1 < |c| then i + 1 else 0;
    CircleClimbs(s, c);
    KindsAgree(s, c, prior);
    KindsAgree(s, c, i);
    KindsAgree(s, c, next);
    assert NextIn(c, prior) == c[i] && NextIn(c, i) == c[next] && Waits(s, c[next], NextIn(c, next));
    SchemaWaiter(s, c[prior], c[i], c[next]);
    SchemaWaiter(s, c[i], c[next], NextIn(c, next));
  }

  /** Without a service drift a circle consists of second passes, each waiting for the next one's schema. */
  lemma CircleIsNaming(s: Sys, c: seq<nat>)
    requires Good(s) && Circle(s, c)
    ensures NamingCircle(s, c)
  {
    if Wanted(s, c[0]).kind == Schema {
      forall i | 0 <= i < |c|
        ensures Names(s, c[i], NextIn(c, i))
      {
        NamesNext(s, c, i);
      }
    } else {
      CircleClimbs(s, c);
      forall i | 0 <= i < |c|
        ensures c[i] in s.procs && InOrder(s.procs[c[i]])
      {
        KindsAgree(s, c, i);
        assert Waits(s, c[i], NextIn(c, i)) && Fine(s, c[i]);
      }
      NoCircle(s, c);
    }
  }

  /** What a second pass holds from its first. */
  lemma SecondHolds(s: Sys, p: nat)
    requires Good(s) && Second(s, p)
    ensures var me, f := s.procs[p], s.procs[p].program.first.value;
            && CredentialRow(f) in me.held && RowId(Schema, FirstSchema(s, p)) in me.held
            && CredentialRow(f) in s.content && RowId(Schema, FirstSchema(s, p)) in s.content
            && SlugOf(s.content, f).Some? && (AsksSchema(me) ==> |me.queue| <= 1)
            && (!Begun(me) || me.program.pick.credential == f.credential)
  {
    assert Fine(s, p);
  }

  predicate Begun(me: Proc) {
    me.program.Resolver? && !me.program.at.Idle?
  }

  /** Two rows with one slug are one row, and no two transactions hold it. */
  lemma OneHolder(s: Sys, p: nat, x: nat, q: nat, y: nat, slug: nat)
    requires Framed(s) && p in s.procs && q in s.procs && p != q
    requires RowId(Schema, x) in s.procs[p].held && RowId(Schema, y) in s.procs[q].held && HasSlug(s.content, x, slug)
    ensures !HasSlug(s.content, y, slug)
  {
    assert RowId(Schema, x) != RowId(Schema, y);
  }

  /** A second pass begun steadily names nobody else. */
  lemma SteadyNamesNobody(s: Sys, p: nat, q: nat)
    requires Good(s) && Enabled(s, ResolverDoes(p, NextPass)) && Steady(s, ResolverDoes(p, NextPass))
    ensures !Names(Do(s, ResolverDoes(p, NextPass)), p, q)
  {
    var s' := Do(s, ResolverDoes(p, NextPass));
    if Names(s', p, q) {
      var pick := s.procs[p].program.pick;
      assert Second(s, q) && FirstSchema(s', q) == FirstSchema(s, q);
      SecondHolds(s, q);
      OneHolder(s, p, pick.schema.value, q, FirstSchema(s, q), SlugOf(s.content, pick).value);
    }
  }

  lemma NamedBeforeTouch(s: Sys, row: RowId, data: Option<Data>, p: nat, q: nat)
    requires Good(s) && Enabled(s, Touch(row, data)) && Names(Do(s, Touch(row, data)), p, q)
    ensures Names(s, p, q)
  {
    assert Second(s, p) && Second(s, q);
    SecondHolds(s, p);
    SecondHolds(s, q);
  }

  lemma NamedBeforeLock(s: Sys, x: nat, p: nat, q: nat)
    requires Good(s) && Enabled(s, Lock(x)) && Names(Do(s, Lock(x)), p, q)
    ensures Names(s, p, q)
  {
    assert Second(s, p) && Second(s, q);
    SecondHolds(s, p);
  }

  lemma NamedBeforeAsk(s: Sys, x: nat, act: ResolverAct, p: nat, q: nat)
    requires Good(s) && Enabled(s, ResolverDoes(x, act)) && !act.NextPass? && Names(Do(s, ResolverDoes(x, act)), p, q)
    ensures Names(s, p, q)
  {
    assert Second(s, p) && Second(s, q);
    SecondHolds(s, p);
  }

  lemma NamedBeforeRest(s: Sys, a: Action, p: nat, q: nat)
    requires Enabled(s, a) && (a.StartOwner? || a.StartResolver? || a.End? || a.OwnerDoes?) && Names(Do(s, a), p, q)
    ensures Names(s, p, q)
  {
    var s' := Do(s, a);
    assert s'.content == s.content && a.p != p && a.p != q;
    assert s'.procs[p] == s.procs[p] && s'.procs[q] == s.procs[q];
  }

  /** Any step but the beginning of a second pass finds the naming already there. */
  lemma NamedBefore(s: Sys, a: Action, p: nat, q: nat)
    requires Good(s) && Enabled(s, a) && !Begins(a) && Names(Do(s, a), p, q)
    ensures Names(s, p, q)
  {
    match a
    case Touch(row, data) => NamedBeforeTouch(s, row, data, p, q);
    case Lock(x) => NamedBeforeLock(s, x, p, q);
    case ResolverDoes(x, act) => NamedBeforeAsk(s, x, act, p, q);
    case _ => NamedBeforeRest(s, a, p, q);
  }

  lemma NamedElsewhere(s: Sys, a: Action, p: nat, q: nat)
    requires Enabled(s, a) && Begins(a) && a.p != p && a.p != q && Names(Do(s, a), p, q)
    ensures Names(s, p, q)
  {
  }

  /** A steady step makes no naming circle. */
  lemma NamingBefore(s: Sys, a: Action, c: seq<nat>)
    requires Good(s) && Enabled(s, a) && Steady(s, a) && NamingCircle(Do(s, a), c)
    ensures NamingCircle(s, c)
  {
    forall i | 0 <= i < |c|
      ensures Names(s, c[i], NextIn(c, i))
    {
      var j := if i + 1 < |c| then i + 1 else 0;
      assert NextIn(c, i) == c[j];
      if !Begins(a) {
        NamedBefore(s, a, c[i], c[j]);
      } else {
        SteadyNamesNobody(s, a.p, c[j]);
        SteadyNamesNobody(s, a.p, NextIn(c, j));
        assert Names(Do(s, a), c[j], NextIn(c, j));
        NamedElsewhere(s, a, c[i], c[j]);
      }
    }
  }

  lemma {:induction false} NamingBeforeRun(s: Sys, run: seq<Action>, c: seq<nat>)
    requires Good(s) && Legal(s, run) && Sheltered(s, run) && NamingCircle(After(s, run), c)
    ensures NamingCircle(s, c)
    decreases |run|
  {
    if run != [] {
      GoodDo(s, run[0]);
      NamingBeforeRun(Do(s, run[0]), run[1..], c);
      NamingBefore(s, run[0], c);
    }
  }

  /**
   * In a run without a service drift every circle of waiting transactions
   * consists of second passes, each waiting for the schema that the next one
   * locked in its first pass.
   */
  lemma CircleNeedsNaming(s: Sys, run: seq<Action>, circle: seq<nat>)
    requires Quiet(s) && Legal(s, run) && MooredRun(s, run) && Circle(After(s, run), circle)
    ensures NamingCircle(After(s, run), circle)
  {
    GoodRun(s, run);
    CircleIsNaming(After(s, run), circle);
  }

  /**
   * No run reaches a circle of waiting transactions if each second pass begins
   * with its assignment on a locked service or on none, and with its type naming
   * the schema it has locked.
   */
  lemma DeadlockFreedom(s: Sys, run: seq<Action>, circle: seq<nat>)
    requires Quiet(s) && Legal(s, run) && Sheltered(s, run)
    ensures !Circle(After(s, run), circle)
  {
    ShelteredIsMoored(s, run);
    assert |circle| >= 2 ==> !Names(s, circle[0], NextIn(circle, 0));
    if Circle(After(s, run), circle) {
      CircleNeedsNaming(s, run, circle);
      NamingBeforeRun(s, run, circle);
    }
  }

  // ------------------------------------------------------------------
  // Driving transactions
  // ------------------------------------------------------------------

  lemma RunCons(s: Sys, a: Action, rest: seq<Action>)
    requires Enabled(s, a) && Legal(Do(s, a), rest)
    ensures Legal(s, [a] + rest) && After(s, [a] + rest) == After(Do(s, a), rest)
  {
    assert ([a] + rest)[0] == a && ([a] + rest)[1..] == rest;
  }

  lemma {:induction false} RunConcat(s: Sys, a: seq<Action>, b: seq<Action>)
    requires Legal(s, a) && Legal(After(s, a), b)
    ensures Legal(s, a + b) && After(s, a + b) == After(After(s, a), b)
    decreases |a|
  {
    if a == [] {
      assert a + b == b;
    } else {
      assert (a + b)[0] == a[0] && (a + b)[1..] == a[1..] + b;
      RunConcat(Do(s, a[0]), a[1..], b);
    }
  }

  /** The run begins no second pass. */
  predicate NoPass(run: seq<Action>) {
    forall i :: 0 <= i < |run| ==> !Begins(run[i])
  }

  lemma {:induction false} NoPassIsSheltered(s: Sys, run: seq<Action>)
    requires Legal(s, run) && NoPass(run)
    ensures Sheltered(s, run) && MooredRun(s, run)
    decreases |run|
  {
    if run != [] {
      assert NoPass(run[1..]);
      NoPassIsSheltered(Do(s, run[0]), run[1..]);
    }
  }

  function Kept(procs: map<nat, Proc>, keep: set<nat>): map<nat, Proc> {
    map p | p in procs && p in keep :: procs[p]
  }

  /** All transactions but these end. */
  lemma {:induction false} EndOthers(s: Sys, keep: set<nat>) returns (run: seq<Action>)
    ensures Legal(s, run) && NoPass(run)
    ensures After(s, run) == s.(procs := Kept(s.procs, keep))
    decreases |s.procs|
  {
    if s.procs.Keys <= keep {
      run := [];
      assert s.procs == Kept(s.procs, keep);
    } else {
      var q :| q in s.procs && q !in keep;
      var s1 := Do(s, End(q));
      assert s1.procs.Keys == s.procs.Keys - {q};
      assert Kept(s1.procs, keep) == Kept(s.procs, keep);
      var rest := EndOthers(s1, keep);
      RunCons(s, End(q), rest);
      run := [End(q)] + rest;
    }
  }

  /** Free rows are deleted. */
  lemma {:induction false} DropRows(s: Sys, rows: set<RowId>) returns (run: seq<Action>)
    requires forall r :: r in rows ==> r in s.content && Free(s, r)
    ensures Legal(s, run) && NoPass(run)
    ensures After(s, run) == s.(content := s.content - rows, gone := s.gone + rows)
    decreases |rows|
  {
    if rows == {} {
      run := [];
      assert s.content - rows == s.content;
    } else {
      var r :| r in rows;
      var s1 := Do(s, Touch(r, None));
      var rest := DropRows(s1, rows - {r});
      RunCons(s, Touch(r, None), rest);
      run := [Touch(r, None)] + rest;
      assert s1.content - (rows - {r}) == s.content - rows && s1.gone + (rows - {r}) == s.gone + rows;
    }
  }

  /** Other assignments the reference selects. */
  function Rivals(c: Content, w: Want, a: nat): set<RowId> {
    set r | r in c && r.kind.Assignment? && r.pk != a && Matches(c, w, r.pk)
  }

  /** Without its rivals an assignment is the only match. */
  lemma RivalsGone(c: Content, w: Want, a: nat)
    requires Matches(c, w, a)
    ensures var c' := c - Rivals(c, w, a);
            && Matches(c', w, a)
            && (forall r :: r in c' && r.kind.Assignment? && Matches(c', w, r.pk) ==> r.pk == a)
  {
    var c' := c - Rivals(c, w, a);
    forall r | r in c' && r.kind.Assignment? && Matches(c', w, r.pk)
      ensures r.pk == a
    {
      assert r == RowId(Assignment, r.pk) && Matches(c, w, r.pk);
    }
  }

  // ------------------------------------------------------------------
  // A naming circle closes
  // ------------------------------------------------------------------

  predicate Asked(s: Sys, p: nat) {
    p in s.procs && AsksSchema(s.procs[p])
  }

  /** Only members of the circle are left. */
  predicate Crew(s: Sys, c: seq<nat>) {
    forall p :: p in s.procs ==> p in c
  }

  lemma MemberIsSecond(s: Sys, c: seq<nat>, p: nat)
    requires NamingCircle(s, c) && p in c
    ensures Second(s, p)
  {
    var i :| 0 <= i < |c| && c[i] == p;
    assert Names(s, c[i], NextIn(c, i));
  }

  /** What a second pass knows of its assignment. */
  lemma SecondAssigned(s: Sys, p: nat)
    requires Good(s) && Second(s, p)
    ensures var me, f := s.procs[p], s.procs[p].program.first.value;
            var a := RowId(Assignment, f.assignment);
            && me.own == {} && a in s.content && s.content[a].AssignmentOf? && s.content[a].credential == f.credential
            && Matches(s.content, me.program.want, f.assignment)
            && (forall r :: r in me.held && r.kind.Assignment? ==> r.pk == f.assignment)
  {
    assert Fine(s, p);
  }

  /** No other second pass has locked a rival of this one's assignment: they would share the credential. */
  lemma RivalNotHeld(s: Sys, p: nat, q: nat, r: RowId)
    requires Good(s) && Second(s, p) && Second(s, q)
    requires r in Rivals(s.content, s.procs[p].program.want, s.procs[p].program.first.value.assignment)
    ensures r !in s.procs[q].held && r !in s.procs[q].own
  {
    SecondAssigned(s, p);
    SecondAssigned(s, q);
    SecondHolds(s, p);
    SecondHolds(s, q);
  }

  lemma RivalsAreFree(s: Sys, c: seq<nat>, p: nat, r: RowId)
    requires Good(s) && NamingCircle(s, c) && Crew(s, c) && p in c && Second(s, p)
    requires r in Rivals(s.content, s.procs[p].program.want, s.procs[p].program.first.value.assignment)
    ensures Free(s, r)
  {
    forall q | q in s.procs
      ensures r !in s.procs[q].held && r !in s.procs[q].own
    {
      MemberIsSecond(s, c, q);
      RivalNotHeld(s, p, q, r);
    }
  }

  /** The first pass's assignment is what the second will pick. */
  ghost predicate Unrivalled(s: Sys, p: nat)
    requires Second(s, p)
  {
    var g := s.procs[p].program;
    && Matches(s.content, g.want, g.first.value.assignment)
    && forall r :: r in s.content && r.kind.Assignment? && Matches(s.content, g.want, r.pk) ==>
         r.pk == g.first.value.assignment
  }

  lemma NamesWithoutRivals(s: Sys, rows: set<RowId>, p: nat, q: nat)
    requires Names(s, p, q) && OfKind(rows, Assignment)
    ensures Names(s.(content := s.content - rows, gone := s.gone + rows), p, q)
  {
  }

  lemma NamingWithoutRivals(s: Sys, c: seq<nat>, rows: set<RowId>)
    requires NamingCircle(s, c) && OfKind(rows, Assignment)
    ensures NamingCircle(s.(content := s.content - rows, gone := s.gone + rows), c)
  {
    forall i | 0 <= i < |c|
      ensures Names(s.(content := s.content - rows, gone := s.gone + rows), c[i], NextIn(c, i))
    {
      NamesWithoutRivals(s, rows, c[i], NextIn(c, i));
    }
  }

  lemma ClearRivals(s: Sys, c: seq<nat>, p: nat) returns (run: seq<Action>)
    requires Good(s) && NamingCircle(s, c) && Crew(s, c) && p in c && Second(s, p)
    ensures Legal(s, run) && NoPass(run)
    ensures var s' := After(s, run);
            Good(s') && NamingCircle(s', c) && s'.procs == s.procs && Unrivalled(s', p)
  {
    var g := s.procs[p].program;
    var rows := Rivals(s.content, g.want, g.first.value.assignment);
    forall r | r in rows
      ensures r in s.content && Free(s, r)
    {
      RivalsAreFree(s, c, p, r);
    }
    run := DropRows(s, rows);
    NoPassIsSheltered(s, run);
    GoodRun(s, run);
    SecondAssigned(s, p);
    RivalsGone(s.content, g.want, g.first.value.assignment);
    NamingWithoutRivals(s, c, rows);
  }

  /** The engines a pass asks for, in order. */
  function EngineQueue(c: Content, pick: Pick): seq<RowId> {
    var policy := RowId(Policy, pick.policy);
    var mine := RowId(Engine, pick.engine);
    var other := if policy in c && c[policy].PolicyOf? then RowId(Engine, c[policy].engine) else mine;
    var low, high := if Before(other, mine) then other else mine, if Before(other, mine) then mine else other;
    (if low in c then [low] else []) + (if high in c && high != low then [high] else [])
  }

  /** What a second pass does next. */
  function NextAct(c: Content, me: Proc, schema: nat): ResolverAct
    requires me.program.Resolver? && me.program.first.Some?
  {
    match me.program.at
    case Idle => PickAssignment(me.program.first.value.assignment)
    case ServiceAsked => AskPolicy
    case PolicyAsked => AskEngines(EngineQueue(c, me.program.pick))
    case EnginesAsked => AskCredential
    case CredentialAsked => AskAssignment
    case _ => AskSchema(Some(schema))
  }

  lemma EngineQueueFinds(c: Content, me: Proc, pick: Pick)
    requires me.own == {}
    ensures Finds(c, me, EnginesFor(c, pick), EngineQueue(c, pick))
  {
  }

  /** Everything it will ask for is there. */
  lemma SecondCan(c: Content, gone: set<RowId>, me: Proc, schema: nat)
    requires ProcOK(c, gone, me) && me.program.Resolver? && me.program.first.Some? && me.queue == []
    requires !me.program.at.SchemaAsked?
    requires forall r :: r in c && r.kind.Assignment? && Matches(c, me.program.want, r.pk) ==>
               r.pk == me.program.first.value.assignment
    requires SlugOf(c, me.program.first.value).Some? && HasSlug(c, schema, SlugOf(c, me.program.first.value).value)
    ensures ResolverCan(c, gone, me, NextAct(c, me, schema))
  {
    if me.program.at.PolicyAsked? {
      EngineQueueFinds(c, me, me.program.pick);
    }
  }

  /** How much of its second pass a delivery has before it asks for its schema. */
  function Left(me: Proc): nat
    requires me.program.Resolver?
  {
    6 - ResolverBound(me.program.at)
  }

  /** The next step of a second pass: a lock it already has, or the next request. */
  function DriveAct(s: Sys, p: nat, schema: nat): Action
    requires Second(s, p)
  {
    if s.procs[p].queue != [] then Lock(p) else ResolverDoes(p, NextAct(s.content, s.procs[p], schema))
  }

  lemma DriveEnabled(s: Sys, p: nat, q: nat)
    requires Good(s) && Names(s, p, q) && !Asked(s, p) && Unrivalled(s, p)
    ensures Enabled(s, DriveAct(s, p, FirstSchema(s, q)))
  {
    var me := s.procs[p];
    assert Fine(s, p);
    if me.queue == [] {
      SecondCan(s.content, s.gone, me, FirstSchema(s, q));
    } else {
      assert me.queue[0] in me.held;
    }
  }

  /** Only the driven delivery moved, towards its schema, with what its first pass left. */
  ghost predicate Driven(s: Sys, s': Sys, p: nat, schema: nat) {
    && s'.content == s.content && s'.procs.Keys == s.procs.Keys
    && (forall x :: x in s.procs && x != p ==> s'.procs[x] == s.procs[x])
    && Second(s, p) && Second(s', p) && !Asked(s, p)
    && s'.procs[p].program.first == s.procs[p].program.first && s'.procs[p].program.want == s.procs[p].program.want
    && (Asked(s', p) ==> s'.procs[p].queue == [RowId(Schema, schema)])
    && Nearer(s, s', p)
  }

  lemma DriveIsDriven(s: Sys, p: nat, schema: nat)
    requires Second(s, p) && !Asked(s, p) && Enabled(s, DriveAct(s, p, schema))
    ensures Driven(s, Do(s, DriveAct(s, p, schema)), p, schema)
  {
  }

  /** The step keeps every naming, since rows with one slug are one row. */
  lemma DrivenKeepsName(s: Sys, s': Sys, p: nat, q: nat, x: nat, y: nat)
    requires Framed(s) && Names(s, p, q) && Names(s, x, y) && Driven(s, s', p, FirstSchema(s, q))
    ensures Names(s', x, y)
  {
    if x == p {
      assert RowId(Schema, FirstSchema(s, y)) == RowId(Schema, FirstSchema(s, q));
    }
  }

  lemma DrivenKeepsRing(s: Sys, s': Sys, c: seq<nat>, i: nat)
    requires Framed(s) && NamingCircle(s, c) && i < |c| && Second(s, NextIn(c, i))
    requires Driven(s, s', c[i], FirstSchema(s, NextIn(c, i)))
    ensures NamingCircle(s', c)
  {
    assert Names(s, c[i], NextIn(c, i));
    forall j | 0 <= j < |c|
      ensures Names(s', c[j], NextIn(c, j))
    {
      DrivenKeepsName(s, s', c[i], NextIn(c, i), c[j], NextIn(c, j));
    }
  }

  /** A ring of deliveries and nobody else. */
  ghost predicate Ring(s: Sys, c: seq<nat>) {
    Good(s) && NamingCircle(s, c) && Crew(s, c)
  }

  ghost predicate AskedToo(s: Sys, s': Sys) {
    forall x :: Asked(s, x) ==> Asked(s', x)
  }

  lemma DrivenKeepsChoice(s: Sys, s': Sys, p: nat, schema: nat)
    requires Driven(s, s', p, schema) && Unrivalled(s, p)
    ensures Unrivalled(s', p)
  {
  }

  lemma DriveKeepsGood(s: Sys, p: nat, q: nat) returns (a: Action, s': Sys)
    requires Good(s) && Names(s, p, q) && !Asked(s, p) && Unrivalled(s, p)
    ensures Enabled(s, a) && !Begins(a) && s' == Do(s, a) && Good(s') && Driven(s, s', p, FirstSchema(s, q))
  {
    DriveEnabled(s, p, q);
    a := DriveAct(s, p, FirstSchema(s, q));
    DriveIsDriven(s, p, FirstSchema(s, q));
    GoodDo(s, a);
    s' := Do(s, a);
  }

  /** The delivery has less to do before it asks for its schema. */
  ghost predicate Nearer(s: Sys, s': Sys, p: nat) {
    && Second(s, p) && Second(s', p)
    && (Left(s'.procs[p]) < Left(s.procs[p])
        || (Left(s'.procs[p]) == Left(s.procs[p]) && |s'.procs[p].queue| < |s.procs[p].queue|))
  }

  lemma DriveStep(s: Sys, c: seq<nat>, i: nat) returns (a: Action, s': Sys)
    requires Ring(s, c) && i < |c| && Second(s, c[i]) && !Asked(s, c[i]) && Unrivalled(s, c[i])
    ensures Enabled(s, a) && !Begins(a) && s' == Do(s, a) && Ring(s', c) && AskedToo(s, s')
    ensures Nearer(s, s', c[i]) && Unrivalled(s', c[i])
  {
    assert Names(s, c[i], NextIn(c, i));
    a, s' := DriveKeepsGood(s, c[i], NextIn(c, i));
    DrivenKeepsRing(s, s', c, i);
    DrivenKeepsChoice(s, s', c[i], FirstSchema(s, NextIn(c, i)));
  }

  lemma {:induction false} DriveOn(s: Sys, c: seq<nat>, i: nat) returns (run: seq<Action>, s': Sys)
    requires Ring(s, c) && i < |c| && Second(s, c[i]) && (Asked(s, c[i]) || Unrivalled(s, c[i]))
    ensures Legal(s, run) && NoPass(run) && s' == After(s, run)
    ensures Ring(s', c) && Asked(s', c[i]) && AskedToo(s, s')
    decreases Left(s.procs[c[i]]), |s.procs[c[i]].queue|
  {
    if Asked(s, c[i]) {
      run, s' := [], s;
    } else {
      var a, s1 := DriveStep(s, c, i);
      var rest;
      rest, s' := DriveOn(s1, c, i);
      RunCons(s, a, rest);
      run := [a] + rest;
    }
  }

  lemma DriveMember(s: Sys, c: seq<nat>, i: nat) returns (run: seq<Action>, s': Sys)
    requires Ring(s, c) && i < |c|
    ensures Legal(s, run) && NoPass(run) && s' == After(s, run)
    ensures Ring(s', c) && Asked(s', c[i]) && AskedToo(s, s')
  {
    MemberIsSecond(s, c, c[i]);
    var clear := ClearRivals(s, c, c[i]);
    var s1 := After(s, clear);
    var drive;
    drive, s' := DriveOn(s1, c, i);
    RunConcat(s, clear, drive);
    run := clear + drive;
  }

  lemma {:induction false} DriveAll(s: Sys, c: seq<nat>, i: nat) returns (run: seq<Action>, s': Sys)
    requires Ring(s, c) && i <= |c| && (forall j :: 0 <= j < i ==> Asked(s, c[j]))
    ensures Legal(s, run) && NoPass(run) && s' == After(s, run)
    ensures Ring(s', c) && (forall j :: 0 <= j < |c| ==> Asked(s', c[j]))
    decreases |c| - i
  {
    if i == |c| {
      run, s' := [], s;
    } else {
      var one, s1 := DriveMember(s, c, i);
      var rest;
      rest, s' := DriveAll(s1, c, i + 1);
      RunConcat(s, one, rest);
      run := one + rest;
    }
  }

  lemma NamesIsWaiting(s: Sys, p: nat, q: nat)
    requires Good(s) && Names(s, p, q) && Asked(s, p)
    ensures Waits(s, p, q)
  {
    SecondHolds(s, q);
  }

  lemma NamesAmong(s: Sys, keep: set<nat>, p: nat, q: nat)
    requires Names(s, p, q) && p in keep && q in keep
    ensures Names(s.(procs := Kept(s.procs, keep)), p, q)
  {
  }

  lemma NamingAmong(s: Sys, c: seq<nat>) returns (run: seq<Action>)
    requires Good(s) && NamingCircle(s, c)
    ensures Legal(s, run) && NoPass(run) && Ring(After(s, run), c)
  {
    var keep := set p | p in c;
    run := EndOthers(s, keep);
    NoPassIsSheltered(s, run);
    GoodRun(s, run);
    forall i | 0 <= i < |c|
      ensures Names(After(s, run), c[i], NextIn(c, i))
    {
      assert Names(s, c[i], NextIn(c, i));
      NamesAmong(s, keep, c[i], NextIn(c, i));
    }
  }

  /** The run leads to a circle, and no second pass in it begins unsteadily. */
  ghost predicate ReachesCircle(s: Sys, run: seq<Action>, circle: seq<nat>) {
    Legal(s, run) && Sheltered(s, run) && Circle(After(s, run), circle)
  }

  /** Deliveries of any number whose types name each other's schemas around a ring can all be led to wait. */
  lemma NamingReachesCircle(s: Sys, c: seq<nat>) returns (run: seq<Action>)
    requires Good(s) && NamingCircle(s, c)
    ensures ReachesCircle(s, run, c)
  {
    var ends := NamingAmong(s, c);
    var drive, s' := DriveAll(After(s, ends), c, 0);
    RunConcat(s, ends, drive);
    run := ends + drive;
    NoPassIsSheltered(s, run);
    forall i | 0 <= i < |c|
      ensures Waits(s', c[i], NextIn(c, i))
    {
      NamesIsWaiting(s', c[i], NextIn(c, i));
    }
  }

  lemma NamingIff(s: Sys)
    requires Good(s)
    ensures (exists rest, circle :: ReachesCircle(s, rest, circle)) <==> (exists c :: NamingCircle(s, c))
  {
    if c :| NamingCircle(s, c) {
      var rest := NamingReachesCircle(s, c);
    }
    if rest, circle :| ReachesCircle(s, rest, circle) {
      ShelteredIsMoored(s, rest);
      GoodRun(s, rest);
      CircleIsNaming(After(s, rest), circle);
      NamingBeforeRun(s, rest, circle);
    }
  }

  /**
   * After any run without a service drift, and as long as no further second pass
   * begins unsteadily, a circle can follow if and only if the second passes
   * under way include a ring in which each has asked for, or has a type that
   * names, the schema the next one locked in its first pass.
   */
  lemma SchemaCircleIff(s: Sys, run: seq<Action>)
    requires Quiet(s) && Legal(s, run) && MooredRun(s, run)
    ensures var s' := After(s, run);
            (exists rest, circle :: ReachesCircle(s', rest, circle)) <==> (exists c :: NamingCircle(s', c))
  {
    GoodRun(s, run);
    NamingIff(After(s, run));
  }

  // ------------------------------------------------------------------
  // A service drift closes a circle
  // ------------------------------------------------------------------

  /** An owner locks the service the delivery is about to ask for, then asks for a policy the delivery holds. */
  lemma OwnerClosesCircle(s: Sys, p: nat, q: nat, service: RowId, policy: RowId) returns (run: seq<Action>)
    requires p in s.procs && q !in s.procs && s.procs[p].queue == [service] && policy in s.procs[p].held
    requires service.kind.Service? && policy.kind.Policy?
    requires Free(s, service) && service in s.content && policy in s.content
    ensures Legal(s, run) && NoPass(run) && Circle(After(s, run), [p, q])
  {
    var ask := OwnerDoes(q, LockService(service.pk));
    var declare := OwnerDoes(q, Declare({}, {policy}, [policy]));
    var s2 := Do(s, StartOwner(q));
    var s3 := Do(s2, ask);
    var s4 := Do(s3, Lock(q));
    var s5 := Do(s4, declare);
    assert Waits(s5, p, q) && Waits(s5, q, p);
    RunCons(s4, declare, []);
    RunCons(s3, Lock(q), [declare]);
    RunCons(s2, ask, [Lock(q)] + [declare]);
    RunCons(s, StartOwner(q), [ask] + ([Lock(q)] + [declare]));
    run := [StartOwner(q)] + ([ask] + ([Lock(q)] + [declare]));
  }

  /** A delivery between its passes, alone, whose assignment hangs off a service it has not locked. */
  ghost predicate Adrift(s: Sys, p: nat, service: nat, policy: nat) {
    && s.procs.Keys == {p} && s.procs[p].program.Resolver? && s.procs[p].queue == [] && s.procs[p].own == {}
    && s.procs[p].program.at.Idle? && s.procs[p].program.first.Some?
    && (var a := s.procs[p].program.first.value.assignment;
        && Matches(s.content, s.procs[p].program.want, a)
        && s.content[RowId(Assignment, a)].service == Some(service)
        && (forall r :: r in s.procs[p].held && r.kind.Assignment? ==> r.pk == a))
    && RowId(Service, service) !in s.procs[p].held
    && RowId(Policy, policy) in s.procs[p].held && RowId(Policy, policy) in s.content
  }

  /** Rival assignments are deleted, so that the reference selects one row again. */
  lemma AdriftAlone(s: Sys, p: nat, service: nat, policy: nat) returns (run: seq<Action>, s': Sys)
    requires Adrift(s, p, service, policy)
    ensures Legal(s, run) && NoPass(run) && s' == After(s, run)
    ensures Adrift(s', p, service, policy)
    ensures Enabled(s', ResolverDoes(p, PickAssignment(s'.procs[p].program.first.value.assignment)))
  {
    var g := s.procs[p].program;
    var rows := Rivals(s.content, g.want, g.first.value.assignment);
    run := DropRows(s, rows);
    s' := After(s, run);
    RivalsGone(s.content, g.want, g.first.value.assignment);
  }

  /** The second pass asks for the service it has not locked. */
  lemma AdriftPicks(s: Sys, p: nat, service: nat, policy: nat) returns (pick: Action, s': Sys)
    requires Adrift(s, p, service, policy)
    requires Enabled(s, ResolverDoes(p, PickAssignment(s.procs[p].program.first.value.assignment)))
    ensures Enabled(s, pick) && !Begins(pick) && s' == Do(s, pick)
    ensures s'.procs.Keys == {p} && s'.procs[p].queue == [RowId(Service, service)]
    ensures RowId(Policy, policy) in s'.procs[p].held && RowId(Policy, policy) in s'.content
    ensures Free(s', RowId(Service, service)) && RowId(Service, service) in s'.content
  {
    pick := ResolverDoes(p, PickAssignment(s.procs[p].program.first.value.assignment));
    s' := Do(s, pick);
  }

  lemma AdriftReachesCircle(s: Sys, p: nat, q: nat, service: nat, policy: nat) returns (run: seq<Action>)
    requires Adrift(s, p, service, policy) && q != p
    ensures Legal(s, run) && NoPass(run) && Circle(After(s, run), [p, q])
  {
    var drop, s1 := AdriftAlone(s, p, service, policy);
    var pick, s2 := AdriftPicks(s1, p, service, policy);
    var rest := OwnerClosesCircle(s2, p, q, RowId(Service, service), RowId(Policy, policy));
    RunCons(s1, pick, rest);
    RunConcat(s, drop, [pick] + rest);
    run := drop + ([pick] + rest);
  }

  /** Once the others end, the delivery that has begun its second pass is adrift. */
  lemma DriftIsAdrift(s: Sys, p: nat) returns (ends: seq<Action>, s': Sys, service: nat, policy: nat)
    requires EarlyGood(s) && Enabled(s, ResolverDoes(p, NextPass)) && !Moored(s, ResolverDoes(p, NextPass))
    ensures var t := Do(s, ResolverDoes(p, NextPass));
            Legal(t, ends) && NoPass(ends) && s' == After(t, ends)
    ensures Adrift(s', p, service, policy)
  {
    assert EarlyFine(s, p);
    var pick := s.procs[p].program.pick;
    service, policy := s.content[RowId(Assignment, pick.assignment)].service.value, pick.policy;
    var t := Do(s, ResolverDoes(p, NextPass));
    ends := EndOthers(t, {p});
    s' := After(t, ends);
  }

  /** From every state a legal run reaches, a second pass begun adrift can be led into a circle. */
  lemma DriftReachesCircle(s: Sys, run: seq<Action>, p: nat, q: nat) returns (rest: seq<Action>)
    requires Quiet(s) && Legal(s, run) && Enabled(After(s, run), ResolverDoes(p, NextPass)) && q != p
    requires !Moored(After(s, run), ResolverDoes(p, NextPass))
    ensures ReachesCircle(Do(After(s, run), ResolverDoes(p, NextPass)), rest, [p, q])
  {
    EarlyRun(s, run);
    var ends, alone, service, policy := DriftIsAdrift(After(s, run), p);
    var close := AdriftReachesCircle(alone, p, q, service, policy);
    var t := Do(After(s, run), ResolverDoes(p, NextPass));
    RunConcat(t, ends, close);
    rest := ends + close;
    NoPassIsSheltered(t, rest);
  }

  /**
   * When a delivery begins its second pass, a circle can follow if and only if
   * its locked assignment now hangs off a service it has not locked, or the
   * second passes under way then include a ring in which each has asked for, or
   * has a type that names, the schema the next one locked.
   */
  lemma DeadlockIff(s: Sys, run: seq<Action>, p: nat)
    requires Quiet(s) && Legal(s, run) && MooredRun(s, run) && Enabled(After(s, run), ResolverDoes(p, NextPass))
    ensures var s' := After(s, run);
            var t := Do(s', ResolverDoes(p, NextPass));
            (exists rest, circle :: ReachesCircle(t, rest, circle))
            <==> (!Anchored(s'.content, s'.procs[p], s'.procs[p].program.pick.assignment)
                  || exists c :: NamingCircle(t, c))
  {
    var s', next := After(s, run), ResolverDoes(p, NextPass);
    if Moored(s', next) {
      GoodRun(s, run);
      GoodDo(s', next);
      NamingIff(Do(s', next));
    } else {
      var rest := DriftReachesCircle(s, run, p, p + 1);
    }
  }

  // ------------------------------------------------------------------
  // Failing runs
  // ------------------------------------------------------------------

  function With(s: Sys, p: nat, me: Proc): Sys {
    s.(procs := s.procs[p := me])
  }

  function Granted(me: Proc, row: RowId): Proc {
    me.(held := me.held + {row}, queue := [])
  }

  /** One granted lock and the next request, as one stretch of a pass. */
  lemma LockThenAsk(s: Sys, p: nat, me: Proc, row: RowId, act: ResolverAct) returns (run: seq<Action>, next: Proc)
    requires me.queue == [row] && row in s.content && me.program.Resolver? && !act.NextPass?
    requires forall q :: q in s.procs && q != p ==> row !in s.procs[q].held
    requires ResolverCan(s.content, s.gone, Granted(me, row), act)
    ensures next == ResolverNext(s.content, s.gone, Granted(me, row), act)
    ensures Legal(With(s, p, me), run) && NoPass(run) && After(With(s, p, me), run) == With(s, p, next)
  {
    assert Locked(s.content, me) == Granted(me, row);
    next := ResolverNext(s.content, s.gone, Granted(me, row), act);
    var s1 := Do(With(s, p, me), Lock(p));
    assert s1 == With(s, p, Granted(me, row));
    assert Do(s1, ResolverDoes(p, act)) == With(s, p, next);
    RunCons(s1, ResolverDoes(p, act), []);
    RunCons(With(s, p, me), Lock(p), [ResolverDoes(p, act)]);
    run := [Lock(p)] + [ResolverDoes(p, act)];
  }

  function Pass(at: ResolverStage, want: Want, pick: Pick, held: set<RowId>, queue: seq<RowId>): Proc {
    Proc(Resolver(at, want, pick, None), held, {}, queue)
  }

  /** One target with two services, and one assignment, of its credential to this service. */
  predicate TwoServices(c: Content, service: nat) {
    && RowId(Service, 1) in c && c[RowId(Service, 1)] == ServiceOf(1)
    && RowId(Service, 2) in c && c[RowId(Service, 2)] == ServiceOf(1)
    && RowId(Policy, 1) in c && c[RowId(Policy, 1)] == PolicyOf(1) && RowId(Engine, 1) in c
    && RowId(Credential, 1) in c && c[RowId(Credential, 1)] == CredentialOf(1, 1, None)
    && RowId(Assignment, 1) in c && c[RowId(Assignment, 1)] == AssignmentOf(1, Some(service), 0, 0, true)
    && forall r :: r in c && r.kind.Assignment? ==> r.pk == 1
  }

  const WANT := Want(1, 0, ByCredential(1))
  const READ := Pick(1, Some(1), 1, 0, 0, None)
  const CHECKED := Pick(1, Some(1), 1, 1, 1, None)
  const GRAPH := {RowId(Service, 1), RowId(Policy, 1), RowId(Engine, 1)}

  const READING := Pass(ServiceAsked, WANT, READ, {}, [RowId(Service, 1)])
  const CHECKING := Pass(CredentialAsked, WANT, CHECKED, GRAPH, [RowId(Credential, 1)])

  function Alone(c: Content, me: Proc): Sys { With(Sys(map[], c, {}), 1, me) }

  /** The first pass reads the assignment, which then moves to the other service. */
  lemma DriftBegins(c: Content) returns (run: seq<Action>, c': Content)
    requires TwoServices(c, 1)
    ensures Legal(Sys(map[], c, {}), run) && After(Sys(map[], c, {}), run) == Alone(c', READING) && TwoServices(c', 2)
  {
    var s := Sys(map[], c, {});
    var pick := ResolverDoes(1, PickAssignment(1));
    var move := Touch(RowId(Assignment, 1), Some(AssignmentOf(1, Some(2), 0, 0, true)));
    var s1 := Do(s, StartResolver(1, WANT));
    assert Matches(c, WANT, 1);
    var s2 := Do(s1, pick);
    assert s2 == Alone(c, READING);
    c' := c[RowId(Assignment, 1) := AssignmentOf(1, Some(2), 0, 0, true)];
    assert Do(s2, move) == Alone(c', READING);
    RunCons(s2, move, []);
    RunCons(s1, pick, [move]);
    RunCons(s, StartResolver(1, WANT), [pick] + [move]);
    run := [StartResolver(1, WANT)] + ([pick] + [move]);
  }

  lemma DriftPassesTheGraph(c: Content) returns (run: seq<Action>)
    requires TwoServices(c, 2)
    ensures Legal(Alone(c, READING), run) && After(Alone(c, READING), run) == Alone(c, CHECKING)
  {
    var s := Sys(map[], c, {});
    var r1, me1 := LockThenAsk(s, 1, READING, RowId(Service, 1), AskPolicy);
    assert EnginesFor(c, CHECKED) == {RowId(Engine, 1)};
    var r2, me2 := LockThenAsk(s, 1, me1, RowId(Policy, 1), AskEngines([RowId(Engine, 1)]));
    var r3, me3 := LockThenAsk(s, 1, me2, RowId(Engine, 1), AskCredential);
    assert me3.held == GRAPH;
    RunConcat(Alone(c, me1), r2, r3);
    RunConcat(Alone(c, READING), r1, r2 + r3);
    run := r1 + (r2 + r3);
  }

  /** The locked assignment still matches through its new service, so the pass is accepted. */
  lemma DriftIsAccepted(c: Content) returns (run: seq<Action>, me: Proc)
    requires TwoServices(c, 2)
    ensures Legal(Alone(c, CHECKING), run) && After(Alone(c, CHECKING), run) == Alone(c, me)
    ensures me == Pass(SchemaAsked, WANT, CHECKED, me.held, []) && RowId(Service, 2) !in me.held
    ensures RowId(Policy, 1) in me.held && (forall r :: r in me.held && r.kind.Assignment? ==> r.pk == 1)
  {
    var s := Sys(map[], c, {});
    var r1, me1 := LockThenAsk(s, 1, CHECKING, RowId(Credential, 1), AskAssignment);
    assert Matches(c, WANT, 1);
    var r2;
    r2, me := LockThenAsk(s, 1, me1, RowId(Assignment, 1), AskSchema(None));
    RunConcat(Alone(c, CHECKING), r1, r2);
    run := r1 + r2;
  }

  lemma DriftIsFollowed(c: Content) returns (run: seq<Action>, me: Proc)
    requires TwoServices(c, 2)
    ensures Legal(Alone(c, CHECKING), run) && After(Alone(c, CHECKING), run) == Alone(c, me)
    ensures Adrift(Alone(c, me), 1, 2, 1)
  {
    var r1, done := DriftIsAccepted(c);
    var next := ResolverDoes(1, NextPass);
    assert Matches(c, WANT, 1);
    me := ResolverNext(c, {}, done, NextPass);
    assert Do(Alone(c, done), next) == Alone(c, me);
    RunCons(Alone(c, done), next, []);
    RunConcat(Alone(c, CHECKING), r1, [next]);
    run := r1 + [next];
  }

  /** A service drift: a run from a quiet start ends in a circle of a delivery and an owner. */
  lemma DriftDeadlocks() returns (s: Sys, run: seq<Action>)
    ensures Quiet(s) && Legal(s, run) && Circle(After(s, run), [1, 2])
  {
    s := Sys(map[], map[
      RowId(Service, 1) := ServiceOf(1),
      RowId(Service, 2) := ServiceOf(1),
      RowId(Policy, 1) := PolicyOf(1),
      RowId(Engine, 1) := Plain,
      RowId(Credential, 1) := CredentialOf(1, 1, None),
      RowId(Assignment, 1) := AssignmentOf(1, Some(1), 0, 0, true)], {});
    run := DriftRuns(s.content);
  }

  lemma DriftRuns(c: Content) returns (run: seq<Action>)
    requires TwoServices(c, 1)
    ensures Legal(Sys(map[], c, {}), run) && Circle(After(Sys(map[], c, {}), run), [1, 2])
  {
    var r1, c' := DriftBegins(c);
    var r2 := DriftPassesTheGraph(c');
    var r3, me := DriftIsFollowed(c');
    var r4 := AdriftReachesCircle(Alone(c', me), 1, 2, 2, 1);
    RunConcat(Alone(c', CHECKING), r3, r4);
    RunConcat(Alone(c', READING), r2, r3 + r4);
    RunConcat(Sys(map[], c, {}), r1, r2 + (r3 + r4));
    run := r1 + (r2 + (r3 + r4));
  }

  /** A credential of its own policy, engine, direct assignment and stored type. */
  predicate Lane(c: Content, k: nat) {
    && RowId(Policy, k) in c && c[RowId(Policy, k)] == PolicyOf(k) && RowId(Engine, k) in c
    && RowId(Credential, k) in c && c[RowId(Credential, k)] == CredentialOf(k, k, Some(k))
    && RowId(Assignment, k) in c && c[RowId(Assignment, k)] == AssignmentOf(k, None, k, 0, true)
  }

  function LaneWant(k: nat): Want { Want(k, 0, ByAssignment(k)) }

  function LanePick(k: nat): Pick { Pick(k, None, k, k, k, None) }

  function LaneRows(k: nat): set<RowId> {
    {RowId(Policy, k), RowId(Engine, k), RowId(Credential, k), RowId(Assignment, k)}
  }

  /** A first pass that has found its schema and not locked it yet. */
  function LaneAsks(k: nat): Proc {
    Pass(SchemaAsked, LaneWant(k), LanePick(k).(schema := Some(k)), LaneRows(k), [RowId(Schema, k)])
  }

  ghost predicate LaneFree(s: Sys, p: nat, k: nat) {
    forall q, r :: q in s.procs && q != p && r in s.procs[q].held ==> r.pk != k
  }

  lemma LaneStarts(s: Sys, p: nat, k: nat) returns (run: seq<Action>, me: Proc)
    requires p !in s.procs && Lane(s.content, k)
    ensures me == Pass(PolicyAsked, LaneWant(k), LanePick(k), {}, [RowId(Policy, k)])
    ensures Legal(s, run) && NoPass(run) && After(s, run) == With(s, p, me)
  {
    me := Pass(PolicyAsked, LaneWant(k), LanePick(k), {}, [RowId(Policy, k)]);
    var start := StartResolver(p, LaneWant(k));
    var pick, ask := ResolverDoes(p, PickAssignment(k)), ResolverDoes(p, AskPolicy);
    var s1 := Do(s, start);
    assert Matches(s.content, LaneWant(k), k);
    var s2 := Do(s1, pick);
    assert Do(s2, ask) == With(s, p, me);
    RunCons(s2, ask, []);
    RunCons(s1, pick, [ask]);
    RunCons(s, start, [pick] + [ask]);
    run := [start] + ([pick] + [ask]);
  }

  lemma LaneLocks(s: Sys, p: nat, k: nat, me: Proc) returns (run: seq<Action>, me': Proc)
    requires Lane(s.content, k) && LaneFree(s, p, k)
    requires me == Pass(PolicyAsked, LaneWant(k), LanePick(k), {}, [RowId(Policy, k)])
    ensures me'.held == LaneRows(k) - {RowId(Assignment, k)}
    ensures me' == Pass(AssignmentAsked, LaneWant(k), LanePick(k), me'.held, [RowId(Assignment, k)])
    ensures Legal(With(s, p, me), run) && NoPass(run) && After(With(s, p, me), run) == With(s, p, me')
  {
    assert EnginesFor(s.content, LanePick(k)) == {RowId(Engine, k)};
    var r1, me1 := LockThenAsk(s, p, me, RowId(Policy, k), AskEngines([RowId(Engine, k)]));
    var r2, me2 := LockThenAsk(s, p, me1, RowId(Engine, k), AskCredential);
    var r3;
    r3, me' := LockThenAsk(s, p, me2, RowId(Credential, k), AskAssignment);
    RunConcat(With(s, p, me1), r2, r3);
    RunConcat(With(s, p, me), r1, r2 + r3);
    run := r1 + (r2 + r3);
  }

  /** A first pass up to the point where it has found its schema. */
  lemma LanePass(s: Sys, p: nat, k: nat) returns (run: seq<Action>)
    requires p !in s.procs && Lane(s.content, k) && LaneFree(s, p, k) && HasSlug(s.content, k, k)
    ensures Legal(s, run) && NoPass(run) && After(s, run) == With(s, p, LaneAsks(k))
  {
    var r1, me1 := LaneStarts(s, p, k);
    var r2, me2 := LaneLocks(s, p, k, me1);
    var r3, me3 := LockThenAsk(s, p, me2, RowId(Assignment, k), AskSchema(Some(k)));
    assert me3 == LaneAsks(k);
    RunConcat(With(s, p, me1), r2, r3);
    RunConcat(s, r1, r2 + r3);
    run := r1 + (r2 + r3);
  }

  /** Two credentials, each with a type of its own. */
  predicate TwoTypes(c: Content) {
    && Lane(c, 1) && Lane(c, 2) && HasSlug(c, 1, 1) && HasSlug(c, 2, 2)
    && forall r :: r in c && c[r].SchemaOf? ==> r == RowId(Schema, 1) || r == RowId(Schema, 2)
  }

  function Swapped(c: Content): Content {
    c[RowId(Schema, 1) := SchemaOf(2)][RowId(Schema, 2) := SchemaOf(1)]
  }

  function Pair(c: Content, a: Proc, b: Proc): Sys { Sys(map[1 := a, 2 := b], c, {}) }

  /** Both deliveries find their schemas by slug. */
  lemma BothAsk(c: Content) returns (run: seq<Action>)
    requires TwoTypes(c)
    ensures var s := Sys(map[], c, {});
            Legal(s, run) && NoPass(run) && After(s, run) == Pair(c, LaneAsks(1), LaneAsks(2))
  {
    var s := Sys(map[], c, {});
    var r1 := LanePass(s, 1, 1);
    var s1 := With(s, 1, LaneAsks(1));
    var r2 := LanePass(s1, 2, 2);
    assert With(s1, 2, LaneAsks(2)) == Pair(c, LaneAsks(1), LaneAsks(2));
    RunConcat(s, r1, r2);
    run := r1 + r2;
  }

  /** A schema nobody has locked gets a slug that is not in use. */
  lemma Renames(c: Content, a: Proc, b: Proc, k: nat, slug: nat)
    requires RowId(Schema, k) in c && a.own == {} && b.own == {}
    requires forall r :: r in a.held || r in b.held ==> !r.kind.Schema?
    requires forall r :: r in c && r != RowId(Schema, k) ==> c[r] != SchemaOf(slug)
    ensures var rename, s := Touch(RowId(Schema, k), Some(SchemaOf(slug))), Pair(c, a, b);
            Enabled(s, rename) && Do(s, rename) == Pair(c[RowId(Schema, k) := SchemaOf(slug)], a, b)
  {
  }

  /** Nobody has locked the schemas yet, and their slugs are exchanged. */
  lemma SlugsSwap(c: Content, a: Proc, b: Proc) returns (run: seq<Action>)
    requires TwoTypes(c) && a.own == {} && b.own == {}
    requires forall r :: r in a.held || r in b.held ==> !r.kind.Schema?
    ensures Legal(Pair(c, a, b), run) && NoPass(run) && After(Pair(c, a, b), run) == Pair(Swapped(c), a, b)
  {
    var one, two := RowId(Schema, 1), RowId(Schema, 2);
    var park, move, back := Touch(one, Some(SchemaOf(3))), Touch(two, Some(SchemaOf(1))), Touch(one, Some(SchemaOf(2)));
    var c1 := c[one := SchemaOf(3)];
    var c2 := c1[two := SchemaOf(1)];
    Renames(c, a, b, 1, 3);
    Renames(c1, a, b, 2, 1);
    Renames(c2, a, b, 1, 2);
    assert c2[one := SchemaOf(2)] == Swapped(c);
    RunCons(Pair(c2, a, b), back, []);
    RunCons(Pair(c1, a, b), move, [back]);
    RunCons(Pair(c, a, b), park, [move] + [back]);
    run := [park] + ([move] + [back]);
  }

  /** A first pass with the schema it found, whatever that schema is called by now. */
  function LaneHas(k: nat): Proc { Granted(LaneAsks(k), RowId(Schema, k)) }

  /** The second pass, begun. */
  function LaneAgain(k: nat): Proc {
    LaneHas(k).(program := LaneHas(k).program.(at := Idle, first := Some(LaneHas(k).program.pick)))
  }

  lemma LaneTurns(s: Sys, p: nat, k: nat) returns (run: seq<Action>)
    requires Lane(s.content, k) && LaneFree(s, p, k) && p in s.procs && s.procs[p] == LaneAsks(k)
    requires RowId(Schema, k) in s.content && Resolves(s.content, Some(k))
    ensures Legal(s, run) && MooredRun(s, run) && After(s, run) == With(s, p, LaneAgain(k))
  {
    var next := ResolverDoes(p, NextPass);
    assert Locked(s.content, LaneAsks(k)) == LaneHas(k);
    var s1 := Do(s, Lock(p));
    assert s1 == With(s, p, LaneHas(k));
    assert Matches(s.content, LaneWant(k), k);
    assert Do(s1, next) == With(s, p, LaneAgain(k));
    RunCons(s1, next, []);
    RunCons(s, Lock(p), [next]);
    run := [Lock(p)] + [next];
    assert run[1..] == [next] && [next][1..] == [];
  }

  lemma {:induction false} MooredConcat(s: Sys, a: seq<Action>, b: seq<Action>)
    requires Legal(s, a) && MooredRun(s, a) && Legal(After(s, a), b) && MooredRun(After(s, a), b)
    ensures Legal(s, a + b) && MooredRun(s, a + b) && After(s, a + b) == After(After(s, a), b)
    decreases |a|
  {
    if a == [] {
      assert a + b == b;
    } else {
      assert (a + b)[0] == a[0] && (a + b)[1..] == a[1..] + b;
      MooredConcat(Do(s, a[0]), a[1..], b);
    }
  }

  /** Each delivery locks the schema it found, which by now has the other one's slug. */
  lemma OneTurns(c: Content) returns (run: seq<Action>)
    requires Lane(c, 1) && HasSlug(c, 1, 2) && HasSlug(c, 2, 1)
    ensures var s := Pair(c, LaneAsks(1), LaneAsks(2));
            Legal(s, run) && MooredRun(s, run) && After(s, run) == Pair(c, LaneAgain(1), LaneAsks(2))
  {
    var s := Pair(c, LaneAsks(1), LaneAsks(2));
    run := LaneTurns(s, 1, 1);
    assert With(s, 1, LaneAgain(1)) == Pair(c, LaneAgain(1), LaneAsks(2));
  }

  lemma BothTurn(c: Content) returns (run: seq<Action>)
    requires Lane(c, 1) && Lane(c, 2) && HasSlug(c, 1, 2) && HasSlug(c, 2, 1)
    ensures var s := Pair(c, LaneAsks(1), LaneAsks(2));
            Legal(s, run) && MooredRun(s, run) && After(s, run) == Pair(c, LaneAgain(1), LaneAgain(2))
  {
    var r1 := OneTurns(c);
    var s1 := Pair(c, LaneAgain(1), LaneAsks(2));
    var r2 := LaneTurns(s1, 2, 2);
    assert With(s1, 2, LaneAgain(2)) == Pair(c, LaneAgain(1), LaneAgain(2));
    MooredConcat(Pair(c, LaneAsks(1), LaneAsks(2)), r1, r2);
    run := r1 + r2;
  }

  lemma SwapNames(c: Content)
    requires Lane(c, 1) && Lane(c, 2) && HasSlug(c, 1, 2) && HasSlug(c, 2, 1)
    ensures NamingCircle(Pair(c, LaneAgain(1), LaneAgain(2)), [1, 2])
  {
    var s := Pair(c, LaneAgain(1), LaneAgain(2));
    assert Names(s, 1, 2) && Names(s, 2, 1);
  }

  /** From a quiet start, without any service drift, to two second passes that name each other's schemas. */
  lemma SwapCrosses(c: Content) returns (run: seq<Action>)
    requires TwoTypes(c)
    ensures var s := Sys(map[], c, {});
            && Legal(s, run) && MooredRun(s, run)
            && After(s, run) == Pair(Swapped(c), LaneAgain(1), LaneAgain(2))
  {
    var s := Sys(map[], c, {});
    var r1 := BothAsk(c);
    var r2 := SlugsSwap(c, LaneAsks(1), LaneAsks(2));
    var r3 := BothTurn(Swapped(c));
    NoPassIsSheltered(s, r1);
    NoPassIsSheltered(Pair(c, LaneAsks(1), LaneAsks(2)), r2);
    MooredConcat(Pair(c, LaneAsks(1), LaneAsks(2)), r2, r3);
    MooredConcat(s, r1, r2 + r3);
    run := r1 + (r2 + r3);
  }

  lemma CircleAfter(s: Sys, run: seq<Action>, c: seq<nat>) returns (all: seq<Action>)
    requires Quiet(s) && Legal(s, run) && MooredRun(s, run) && NamingCircle(After(s, run), c)
    ensures Legal(s, all) && MooredRun(s, all) && Circle(After(s, all), c)
  {
    GoodRun(s, run);
    var rest := NamingReachesCircle(After(s, run), c);
    ShelteredIsMoored(After(s, run), rest);
    MooredConcat(s, run, rest);
    all := run + rest;
  }

  /** Wherever there are two such credentials. */
  lemma SwapRuns(c: Content) returns (run: seq<Action>)
    requires TwoTypes(c)
    ensures var s := Sys(map[], c, {});
            Quiet(s) && Legal(s, run) && MooredRun(s, run) && Circle(After(s, run), [1, 2])
  {
    var cross := SwapCrosses(c);
    SwapNames(Swapped(c));
    run := CircleAfter(Sys(map[], c, {}), cross, [1, 2]);
  }

  /**
   * A schema rename: two schemas exchange their slugs after two deliveries found
   * them and before either is locked. A run without any service drift ends in a
   * circle of the two deliveries.
   */
  lemma SwapDeadlocks() returns (s: Sys, run: seq<Action>)
    ensures Quiet(s) && Legal(s, run) && MooredRun(s, run) && Circle(After(s, run), [1, 2])
  {
    s := Sys(map[], map[
      RowId(Policy, 1) := PolicyOf(1),
      RowId(Engine, 1) := Plain,
      RowId(Credential, 1) := CredentialOf(1, 1, Some(1)),
      RowId(Assignment, 1) := AssignmentOf(1, None, 1, 0, true),
      RowId(Policy, 2) := PolicyOf(2),
      RowId(Engine, 2) := Plain,
      RowId(Credential, 2) := CredentialOf(2, 2, Some(2)),
      RowId(Assignment, 2) := AssignmentOf(2, None, 2, 0, true),
      RowId(Schema, 1) := SchemaOf(1),
      RowId(Schema, 2) := SchemaOf(2)], {});
    run := SwapRuns(s.content);
  }

  // ------------------------------------------------------------------
  // A whole owner
  // ------------------------------------------------------------------

  function Owning(
    stage: OwnerStage, known: set<RowId>, credentials: set<RowId>, held: set<RowId>, queue: seq<RowId>): Proc
  {
    Proc(MaterialOwner(stage, known, false, credentials), held, {}, queue)
  }

  /** One request of an owner alone, and its granted lock. */
  lemma AskThenLock(s: Sys, p: nat, me: Proc, act: OwnerAct, row: RowId) returns (run: seq<Action>, next: Proc)
    requires s.procs == map[] && me.program.MaterialOwner? && me.queue == [] && !act.Insert?
    requires OwnerCan(s.content, s.gone, me, act) && OwnerNext(me, act).queue == [row] && row in s.content
    ensures next == Granted(OwnerNext(me, act), row)
    ensures Legal(With(s, p, me), run) && NoPass(run) && After(With(s, p, me), run) == With(s, p, next)
  {
    var asked := OwnerNext(me, act);
    next := Granted(asked, row);
    assert Locked(s.content, asked) == next;
    assert Do(With(s, p, me), OwnerDoes(p, act)) == With(s, p, asked);
    assert Do(With(s, p, asked), Lock(p)) == With(s, p, next);
    RunCons(With(s, p, asked), Lock(p), []);
    RunCons(With(s, p, me), OwnerDoes(p, act), [Lock(p)]);
    run := [OwnerDoes(p, act)] + [Lock(p)];
  }

  /** Policies, then engines, then credentials. */
  lemma OwnerLocks(s: Sys, p: nat, a: RowId, e: RowId, k: RowId) returns (run: seq<Action>, me: Proc)
    requires Quiet(s) && {a, e, k} <= s.content.Keys && a.kind.Policy? && e.kind.Engine? && k.kind.Credential?
    ensures Legal(With(s, p, Owning(Fresh, {}, {}, {}, [])), run) && NoPass(run)
    ensures After(With(s, p, Owning(Fresh, {}, {}, {}, [])), run) == With(s, p, me)
    ensures me.program == MaterialOwner(AtCredentials, {a, e, k}, false, {k})
    ensures me.held == {a, e, k} && me.own == {} && me.queue == []
  {
    var me0 := Owning(Fresh, {}, {}, {}, []);
    var r1, me1 := AskThenLock(s, p, me0, Declare({k}, {a}, [a]), a);
    assert me1.held == {a} && me1.program.known == {k, a};
    var r2, me2 := AskThenLock(s, p, me1, DeclareEngines({e}, [e]), e);
    assert me2.held == {a, e} && me2.program.known == {a, e, k};
    var r3;
    r3, me := AskThenLock(s, p, me2, AskCredentials([k]), k);
    RunConcat(With(s, p, me1), r2, r3);
    RunConcat(With(s, p, me0), r1, r2 + r3);
    run := r1 + (r2 + r3);
  }

  /** From every quiet state an owner of a policy, an engine and a credential locks them in this order and freezes. */
  lemma OwnerCompletes(s: Sys, p: nat, a: RowId, e: RowId, k: RowId) returns (run: seq<Action>, me: Proc)
    requires Quiet(s) && {a, e, k} <= s.content.Keys && a.kind.Policy? && e.kind.Engine? && k.kind.Credential?
    ensures Legal(s, run) && NoPass(run) && After(s, run) == With(s, p, me)
    ensures me.program.MaterialOwner? && me.program.frozen && me.queue == [] && me.held == {a, e, k} == me.program.known
  {
    var me0 := Owning(Fresh, {}, {}, {}, []);
    var locks, done := OwnerLocks(s, p, a, e, k);
    me := OwnerNext(done, Freeze);
    assert Do(s, StartOwner(p)) == With(s, p, me0);
    assert Do(With(s, p, done), OwnerDoes(p, Freeze)) == With(s, p, me);
    RunCons(With(s, p, done), OwnerDoes(p, Freeze), []);
    RunConcat(With(s, p, me0), locks, [OwnerDoes(p, Freeze)]);
    RunCons(s, StartOwner(p), locks + [OwnerDoes(p, Freeze)]);
    run := [StartOwner(p)] + (locks + [OwnerDoes(p, Freeze)]);
  }

  /** A frozen owner can insert new rows, and is refused any request for a row it does not know. */
  lemma FrozenOwnerAsksNothingNew(s: Sys, p: nat, act: OwnerAct)
    requires p in s.procs && s.procs[p].program.MaterialOwner? && s.procs[p].program.frozen
    requires act.Declare? || act.DeclareEngines?
    requires exists r :: r in (if act.Declare? then act.credentials + act.policies else act.engines)
                         && r !in s.procs[p].program.known
    ensures !Enabled(s, OwnerDoes(p, act))
  {
  }
}
