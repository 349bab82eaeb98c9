/**
 Every concurrent run over one change request: approvers, deniers and secret readers, each
 at its own program counter, moving a shared row, ledger, secret, target and audit log one
 atomic step at a time. A run may stop for good between any two steps, a store or audit call
 may fail with or without having taken effect, and the target may be edited at any moment.
 */
module ChangeProtocol {
  import opened Basics
  import opened ApprovalBar
  import opened ChangeStore
  import opened ChangePropose

  /** A call may succeed, fail before it took effect, or take effect with the reply lost. */
  datatype Fault = Fine | LostBefore | LostAfter

  datatype Outcome =
    | Refused | Partial | LostClaim | Succeeded | RunFailed | DenialRecorded
    | Delivered(secret: string) | Faulted

  /** Where one run stands, with the values it holds. */
  datatype Pc =
    // approve and execute
    | Loading
    | Checking(seen: Row)
    | Previewing(view: Status, at: Instant)
    | Deciding(view: Status, at: Instant)
    | AuditingPartial
    | AuditingApproval
    | Claiming
    | Resolving
    | Rechecking
    | Running(rechecked: Option<Target>)
    | StoringSecret(secret: string)
    | MarkingExecuted
    | Listing
    | AuditingExecution(names: seq<string>)
    | MarkingFailed
    | AuditingFailure
    // deny
    | DenyLoading(reason: string)
    | Denying(reason: string, at: Instant)
    | AuditingDenial
    // read the secret
    | ReadLoading
    | Peeking
    | Decrypting(envelope: Sealed)
    | Burning(plaintext: string)
    | Finished(outcome: Outcome)

  datatype Op = Op(actor: Principal, session: Option<Session>, acknowledged: bool, pc: Pc)

  datatype AuditRow =
    | ApproveAudit(who: string)
    | DenyAudit(who: string)
    | ExecuteAudit(who: string, names: seq<string>)
    | FailureAudit(who: string)

  datatype Sealed = Sealed(keyId: string, plaintext: string)
  datatype StoredSecret = StoredSecret(envelope: Sealed, retrieved: bool)

  // ---- history, read by the properties and by no step ----

  /** An operator cleared the frozen bar at `at` and, if governed, the effect preview. */
  datatype Pass = Pass(actor: Principal, session: Option<Session>, at: Instant, acknowledged: bool, blocked: bool)

  /** The side effect ran: who ran it, over what, and how much audit was durable by then. */
  datatype Effect = Effect(run: nat, before: Option<Target>, rechecked: Option<Target>, audited: nat, secret: Option<string>, reported: bool)

  datatype Delivery = Delivery(to: string, secret: string)

  /** What all runs share: the stored tables, the target, the audit log, the keys, and history. */
  datatype Shared = Shared(
    clock: Instant, row: Row, ledger: seq<string>, secret: Option<StoredSecret>,
    target: Option<Target>, writes: nat, audit: seq<AuditRow>, keyring: set<string>, activeKey: string,
    captured: Option<Target>, passes: seq<Pass>, claimant: Option<nat>,
    effects: seq<Effect>, deliveries: seq<Delivery>)

  datatype State = State(shared: Shared, ops: map<nat, Op>)

  /** What the executor does once called. */
  datatype Execution =
    | Reject
    | Write(content: Option<string>, secret: Option<string>, reported: bool)

  /** Everything a step leaves to chance. */
  datatype Chance = Chance(fault: Fault, begun: int, good: bool, text: string, execution: Execution)

  datatype Action =
    | Tick(nanos: nat)
    | Edit(content: Option<string>)
    | Rekey(keyring: set<string>, activeKey: string)
    | StartApprove(id: nat, actor: Principal, session: Option<Session>, acknowledged: bool)
    | StartDeny(id: nat, actor: Principal, reason: string)
    | StartRead(id: nat, actor: Principal)
    | Advance(id: nat, chance: Chance)

  // ---- steps: the shared state and program counter a run moves to -----------

  datatype Move = Move(shared: Shared, pc: Pc)

  /** A write whose effect is `done`: kept, not made, or kept with the reply lost. */
  function Attempt(fault: Fault, g: Shared, done: Shared, next: Pc): Move {
    match fault
    case Fine => Move(done, next)
    case LostBefore => Move(g, Finished(Faulted))
    case LostAfter => Move(done, Finished(Faulted))
  }

  function Record(g: Shared, a: AuditRow): Shared {
    g.(audit := g.audit + [a])
  }

  /** The transaction of a deciding statement begins after the step before it, at `at`, and no later than now. */
  function Begun(g: Shared, c: Chance, at: Instant): int {
    Max(at, Min(c.begun, g.clock))
  }

  function Load(g: Shared, op: Op, c: Chance): Move {
    if c.fault != Fine then Move(g, Finished(Faulted))
    else if op.actor.tenant != g.row.intent.tenant then Move(g, Finished(Refused))
    else Move(g, Checking(g.row))
  }

  function Check(g: Shared, op: Op, seen: Row): Move {
    var view := EffectiveStatus(seen, g.clock);
    if view != Pending && view != Approved then Move(g, Finished(Refused))
    else if Enforce(seen.intent.bar, seen.intent.createdAt, op.actor, op.session, g.clock).Err?
    then Move(g, Finished(Refused))
    else Move(g, Previewing(view, g.clock))
  }

  /** `good` says the recomputed preview is available and names no blocker. The decision starts only once it is done. */
  function Preview(registry: Registry, g: Shared, op: Op, view: Status, at: Instant, c: Chance): Move
    requires g.row.intent.action in registry
  {
    if registry[g.row.intent.action].governed && (!op.acknowledged || !c.good) then Move(g, Finished(Refused))
    else Move(g.(passes := g.passes + [Pass(op.actor, op.session, at, op.acknowledged, !c.good)]), Deciding(view, g.clock))
  }

  function Decide(g: Shared, op: Op, view: Status, at: Instant, c: Chance): Move {
    if view == Approved then Move(g, AuditingApproval)
    else if g.row.intent.bar.required > 1 then RecordOne(g, op, at, c)
    else
      var won := TryApprove(g.row, op.actor.sub, Begun(g, c, at));
      if won.None? then Move(g, Finished(if c.fault == Fine then Refused else Faulted))
      else Attempt(c.fault, g, g.(row := won.value), AuditingApproval)
  }

  function RecordOne(g: Shared, op: Op, at: Instant, c: Chance): Move {
    var p := RecordApproval(g.row, g.ledger, op.actor.sub, Begun(g, c, at), g.clock);
    Attempt(c.fault, g, g.(row := p.row, ledger := p.ledger),
            if p.flipped then AuditingApproval else if p.counted then AuditingPartial else Finished(Partial))
  }

  function Claim(g: Shared, id: nat, c: Chance): Move {
    var won := TryBegin(g.row);
    if won.None? then Move(g, Finished(if c.fault == Fine then LostClaim else Faulted))
    else Attempt(c.fault, g, g.(row := won.value, claimant := Some(id)), Resolving)
  }

  function Resolve(registry: Registry, g: Shared): Move {
    Move(g, if g.row.intent.action in registry then Rechecking else MarkingFailed)
  }

  /** `good` says the target could be read. */
  function Recheck(registry: Registry, g: Shared, c: Chance): Move
    requires g.row.intent.action in registry
  {
    var token := g.row.intent.token;
    if token.None? || (c.good && Capture(registry[g.row.intent.action], g.target) == token)
    then Move(g, Running(g.target))
    else Move(g, MarkingFailed)
  }

  /**
   The executor runs. One that binds the witness writes only if the target still matches it.
   An executor may also report an error after its write is already durable.
   */
  function Execute(registry: Registry, g: Shared, id: nat, rechecked: Option<Target>, c: Chance): Move
    requires g.row.intent.action in registry
  {
    var e, token := registry[g.row.intent.action], g.row.intent.token;
    if c.execution.Reject? || (e.binds && (token.None? || Capture(e, g.target) != token))
    then Move(g, MarkingFailed)
    else
      var x := c.execution;
      Move(g.(target := if x.content.Some? then Some(Target(g.writes + 1, x.content.value)) else None,
              writes := g.writes + 1,
              effects := g.effects + [Effect(id, g.target, rechecked, |g.audit|, x.secret, x.reported)]),
           if !x.reported then MarkingFailed
           else if x.secret.Some? then StoringSecret(x.secret.value)
           else MarkingExecuted)
  }

  /** `good` says the secret could be encrypted; any failure to persist fails the change. */
  function StoreSecret(g: Shared, secret: string, c: Chance): Move {
    var stored := g.(secret := Some(StoredSecret(Sealed(g.activeKey, secret), false)));
    if !c.good || g.secret.Some? || c.fault == LostBefore then Move(g, MarkingFailed)
    else Move(stored, if c.fault == LostAfter then MarkingFailed else MarkingExecuted)
  }

  function FinishExecuted(g: Shared, c: Chance): Move {
    var won := MarkExecuted(g.row, c.text);
    if won.None? then Move(g, Finished(Faulted))
    else Attempt(c.fault, g, g.(row := won.value),
                 if g.row.intent.bar.required > 1 then Listing else AuditingExecution([]))
  }

  function ListApprovers(g: Shared, c: Chance): Move {
    Move(g, if c.fault != Fine then Finished(Faulted) else AuditingExecution(g.ledger))
  }

  function FinishFailed(g: Shared, c: Chance): Move {
    var won := MarkFailed(g.row, c.text);
    Attempt(c.fault, g, if won.Some? then g.(row := won.value) else g, AuditingFailure)
  }

  function DenyLoad(g: Shared, op: Op, reason: string, c: Chance): Move {
    if IsBlank(reason) then Move(g, Finished(Refused))
    else if c.fault != Fine then Move(g, Finished(Faulted))
    else if op.actor.tenant != g.row.intent.tenant then Move(g, Finished(Refused))
    else Move(g, Denying(reason, g.clock))
  }

  function DecideDenial(g: Shared, op: Op, reason: string, at: Instant, c: Chance): Move {
    var won := TryDeny(g.row, op.actor.sub, reason, Begun(g, c, at));
    if won.None? then Move(g, Finished(if c.fault == Fine then Refused else Faulted))
    else Attempt(c.fault, g, g.(row := won.value), AuditingDenial)
  }

  /** Only the maker, and only after execution; another maker's change reads as absent. */
  function ReadLoad(g: Shared, op: Op, c: Chance): Move {
    if c.fault != Fine then Move(g, Finished(Faulted))
    else if op.actor.tenant != g.row.intent.tenant || op.actor.sub != g.row.intent.requestedBy
    then Move(g, Finished(Refused))
    else if EffectiveStatus(g.row, g.clock) != Executed || !c.good then Move(g, Finished(Refused))
    else Move(g, Peeking)
  }

  function Peek(g: Shared, c: Chance): Move {
    if c.fault != Fine then Move(g, Finished(Faulted))
    else if g.secret.None? then Move(g, Finished(Refused))
    else Move(g, Decrypting(g.secret.value.envelope))
  }

  /** Decryption needs the key of the envelope; `good` says the plaintext is valid text. */
  function Decrypt(g: Shared, envelope: Sealed, c: Chance): Move {
    Move(g, if envelope.keyId in g.keyring && c.good then Burning(envelope.plaintext) else Finished(Faulted))
  }

  function Burn(g: Shared, op: Op, plaintext: string, c: Chance): Move {
    if c.fault == LostBefore then Move(g, Finished(Faulted))
    else if g.secret.None? || g.secret.value.retrieved then Move(g, Finished(Refused))
    else
      var burned := g.(secret := Some(g.secret.value.(retrieved := true)));
      if c.fault == LostAfter then Move(burned, Finished(Faulted))
      else Move(burned.(deliveries := g.deliveries + [Delivery(op.actor.sub, plaintext)]), Finished(Delivered(plaintext)))
  }

  /** One step of an approver up to the execution claim. */
  function ApproveTurn(registry: Registry, g: Shared, id: nat, op: Op, c: Chance): Move
    requires g.row.intent.action in registry
  {
    match op.pc
    case Loading => Load(g, op, c)
    case Checking(seen) => Check(g, op, seen)
    case Previewing(view, at) => Preview(registry, g, op, view, at, c)
    case Deciding(view, at) => Decide(g, op, view, at, c)
    case AuditingPartial => Attempt(c.fault, g, Record(g, ApproveAudit(op.actor.sub)), Finished(Partial))
    case AuditingApproval => Attempt(c.fault, g, Record(g, ApproveAudit(op.actor.sub)), Claiming)
    case Claiming => Claim(g, id, c)
    case _ => Move(g, op.pc)
  }

  /** One step of an approver that holds the execution claim. */
  function ExecuteTurn(registry: Registry, g: Shared, id: nat, op: Op, c: Chance): Move
    requires g.row.intent.action in registry
  {
    match op.pc
    case Resolving => Resolve(registry, g)
    case Rechecking => Recheck(registry, g, c)
    case Running(rechecked) => Execute(registry, g, id, rechecked, c)
    case StoringSecret(secret) => StoreSecret(g, secret, c)
    case MarkingExecuted => FinishExecuted(g, c)
    case Listing => ListApprovers(g, c)
    case AuditingExecution(names) =>
      Attempt(c.fault, g, Record(g, ExecuteAudit(op.actor.sub, names)), Finished(Succeeded))
    case MarkingFailed => FinishFailed(g, c)
    case AuditingFailure => Attempt(c.fault, g, Record(g, FailureAudit(op.actor.sub)), Finished(RunFailed))
    case _ => Move(g, op.pc)
  }

  /** One step of a denier or of a secret reader. */
  function OtherTurn(g: Shared, op: Op, c: Chance): Move {
    match op.pc
    case DenyLoading(reason) => DenyLoad(g, op, reason, c)
    case Denying(reason, at) => DecideDenial(g, op, reason, at, c)
    case AuditingDenial => Attempt(c.fault, g, Record(g, DenyAudit(op.actor.sub)), Finished(DenialRecorded))
    case ReadLoading => ReadLoad(g, op, c)
    case Peeking => Peek(g, c)
    case Decrypting(envelope) => Decrypt(g, envelope, c)
    case Burning(plaintext) => Burn(g, op, plaintext, c)
    case _ => Move(g, op.pc)
  }

  predicate Approving(pc: Pc) {
    || pc.Loading? || pc.Checking? || pc.Previewing? || pc.Deciding?
    || pc.AuditingPartial? || pc.AuditingApproval? || pc.Claiming?
  }

  predicate Serving(pc: Pc) {
    || pc.DenyLoading? || pc.Denying? || pc.AuditingDenial?
    || pc.ReadLoading? || pc.Peeking? || pc.Decrypting? || pc.Burning?
  }

  /** One step of run `id`; a finished run stays as it is. */
  function Turn(registry: Registry, g: Shared, id: nat, op: Op, c: Chance): Move
    requires g.row.intent.action in registry
  {
    if Approving(op.pc) then ApproveTurn(registry, g, id, op, c)
    else if Serving(op.pc) then OtherTurn(g, op, c)
    else ExecuteTurn(registry, g, id, op, c)
  }

  function EditTarget(g: Shared, content: Option<string>): Shared {
    g.(target := if content.Some? then Some(Target(g.writes + 1, content.value)) else None, writes := g.writes + 1)
  }

  function Start(s: State, id: nat, op: Op): State {
    if id in s.ops then s else s.(ops := s.ops[id := op])
  }

  /** The state after `a`; an action that is not possible leaves the state alone. */
  function Step(registry: Registry, s: State, a: Action): State
    requires s.shared.row.intent.action in registry
  {
    var g := s.shared;
    match a
    case Tick(nanos) => s.(shared := g.(clock := Min(g.clock + nanos, MAX_INSTANT)))
    case Edit(content) => s.(shared := EditTarget(g, content))
    case Rekey(keyring, activeKey) => s.(shared := g.(keyring := keyring, activeKey := activeKey))
    case StartApprove(id, actor, session, acknowledged) => Start(s, id, Op(actor, session, acknowledged, Loading))
    case StartDeny(id, actor, reason) => Start(s, id, Op(actor, None, false, DenyLoading(reason)))
    case StartRead(id, actor) => Start(s, id, Op(actor, None, false, ReadLoading))
    case Advance(id, c) =>
      if id !in s.ops then s
      else
        var m := Turn(registry, g, id, s.ops[id], c);
        State(m.shared, s.ops[id := s.ops[id].(pc := m.pc)])
  }

  predicate Versioned(captured: Option<Target>, target: Option<Target>, writes: nat) {
    && (captured.Some? ==> captured.value.version <= writes)
    && (target.Some? ==> target.value.version <= writes)
    && (target.Some? && captured.Some? && target.value.version == captured.value.version ==> target == captured)
  }

  /**
   A freshly stored proposal. Its witness was captured from `captured`, possibly before
   further writes, and no operator has acted on it yet.
   */
  ghost predicate Init(registry: Registry, s: State) {
    var g := s.shared;
    && (exists id, actor, req, readable, now: Instant, createdAt: Instant ::
          Propose(registry, id, actor, req, g.captured, readable, now, createdAt) == Ok(g.row))
    && Versioned(g.captured, g.target, g.writes)
    && g.ledger == [] && g.secret.None? && g.audit == [] && s.ops == map[]
    && g.passes == [] && g.claimant.None? && g.effects == [] && g.deliveries == []
  }

  ghost predicate Next(registry: Registry, s: State, s': State) {
    s.shared.row.intent.action in registry && exists a :: s' == Step(registry, s, a)
  }

  ghost predicate NextAt(registry: Registry, b: seq<State>, i: nat)
    requires i + 1 < |b|
  {
    Next(registry, b[i], b[i + 1])
  }

  /** A run of the whole system. */
  ghost predicate Behavior(registry: Registry, b: seq<State>) {
    && |b| > 0 && Init(registry, b[0])
    && forall i: nat | i + 1 < |b| :: NextAt(registry, b, i)
  }
}
