/** The inductive invariant of the change-request protocol, over every interleaving. */
module ChangeSafety {
  import opened Basics
  import opened ApprovalBar
  import opened ChangeStore
  import opened ChangePropose
  import opened ChangeProtocol

  // ---- vocabulary ----------------------------------------------------------

  ghost predicate PassOk(registry: Registry, intent: Intent, p: Pass)
    requires intent.action in registry
  {
    && p.actor.tenant == intent.tenant
    && MeetsBar(intent.bar, intent.createdAt, p.actor, p.session, p.at)
    && (registry[intent.action].governed ==> p.acknowledged && !p.blocked)
  }

  ghost predicate HasPass(passes: seq<Pass>, sub: string) {
    exists i :: 0 <= i < |passes| && passes[i].actor.sub == sub
  }

  /** The approve audit of `sub` was among the first `n` rows. */
  ghost predicate ApprovedBy(audit: seq<AuditRow>, n: nat, sub: string) {
    n <= |audit| && ApproveAudit(sub) in audit[..n]
  }

  /** A run that got past looking the request up, which only its own tenant does. */
  predicate Admitted(pc: Pc) {
    !(pc.Loading? || pc.DenyLoading? || pc.ReadLoading? || pc == Finished(Refused) || pc == Finished(Faulted))
  }

  /** A run that holds the execution claim and has not settled the row. */
  predicate Holding(pc: Pc) {
    pc.Resolving? || pc.Rechecking? || pc.Running? || pc.StoringSecret? || pc.MarkingExecuted? || pc.MarkingFailed?
  }

  predicate Unclaimed(pc: Pc) {
    || pc.Loading? || pc.Checking? || pc.Previewing? || pc.Deciding? || pc.AuditingPartial?
    || pc.AuditingApproval? || pc.Claiming?
    || pc.DenyLoading? || pc.Denying? || pc.AuditingDenial?
    || pc.ReadLoading? || pc.Peeking? || pc.Decrypting? || pc.Burning?
  }

  predicate Claimed(status: Status) {
    status == Executing || status == Executed || status == Failed
  }

  predicate Decided(status: Status) {
    status == Approved || Claimed(status)
  }

  // ---- invariant of the shared state ---------------------------------------

  ghost predicate IntentOk(registry: Registry, intent: Intent, captured: Option<Target>) {
    && intent.action in registry
    && intent.bar.required >= 1
    && (intent.token.Some? ==> intent.token == Capture(registry[intent.action], captured))
  }

  /** A quorum is reached by exactly the bar's number of distinct approvers, before expiry. */
  ghost predicate QuorumOk(row: Row, ledger: seq<string>, passes: seq<Pass>) {
    var required := row.intent.bar.required;
    && row.status != Expired
    && Distinct(ledger)
    && (required == 1 ==> ledger == [])
    && (required > 1 && !Decided(row.status) ==> |ledger| < required)
    && (Decided(row.status) ==>
          && (required > 1 ==> |ledger| == required)
          && row.approver.Some? && HasPass(passes, row.approver.value)
          && row.decidedAt.Some? && row.decidedAt.value < row.intent.expiresAt)
  }

  /** A denial names who denied, why, and an instant before expiry. */
  ghost predicate DenialOk(row: Row) {
    row.status == Denied ==>
      && row.approver.Some? && row.deniedReason.Some? && !IsBlank(row.deniedReason.value)
      && row.decidedAt.Some? && row.decidedAt.value < row.intent.expiresAt
  }

  ghost predicate PassesOk(registry: Registry, intent: Intent, ledger: seq<string>, passes: seq<Pass>)
    requires intent.action in registry
  {
    && (forall i | 0 <= i < |passes| :: PassOk(registry, intent, passes[i]))
    && (forall i | 0 <= i < |ledger| :: HasPass(passes, ledger[i]))
  }

  ghost predicate EffectOk(registry: Registry, intent: Intent, captured: Option<Target>, audit: seq<AuditRow>,
                           claimant: Option<nat>, f: Effect)
    requires intent.action in registry
  {
    var e, token := registry[intent.action], intent.token;
    && claimant == Some(f.run)
    && f.audited <= |audit|
    && (token.Some? ==> Capture(e, f.rechecked) == token)
    && (e.binds ==> token.Some? && Capture(e, f.before) == token)
    && (f.before.Some? && captured.Some? && f.before.value.version == captured.value.version ==> f.before == captured)
  }

  ghost predicate EffectsOk(registry: Registry, intent: Intent, captured: Option<Target>, audit: seq<AuditRow>,
                            claimant: Option<nat>, effects: seq<Effect>)
    requires intent.action in registry
  {
    && |effects| <= 1
    && forall i | 0 <= i < |effects| :: EffectOk(registry, intent, captured, audit, claimant, effects[i])
  }

  ghost predicate ClaimOk(status: Status, claimant: Option<nat>, effects: seq<Effect>, secret: Option<StoredSecret>) {
    && (claimant.Some? <==> Claimed(status))
    && (claimant.None? ==> effects == [])
    && (status == Executed ==> |effects| == 1 && effects[0].reported && (effects[0].secret.Some? ==> secret.Some?))
    && (secret.Some? ==> |effects| == 1 && effects[0].secret == Some(secret.value.envelope.plaintext))
  }

  /** The secret reaches nobody but the maker, once, and only after execution. */
  ghost predicate DeliveryOk(row: Row, secret: Option<StoredSecret>, deliveries: seq<Delivery>) {
    && |deliveries| <= 1
    && (|deliveries| == 1 ==>
          && row.status == Executed && secret.Some? && secret.value.retrieved
          && deliveries[0] == Delivery(row.intent.requestedBy, secret.value.envelope.plaintext))
  }

  /** What an execute audit names. */
  function Named(row: Row, ledger: seq<string>): seq<string> {
    if row.intent.bar.required > 1 then ledger else []
  }

  /** An audit row is true: who approved had cleared the bar, who denied did, and outcomes are the row's. */
  ghost predicate AuditRowOk(row: Row, ledger: seq<string>, passes: seq<Pass>, a: AuditRow) {
    match a
    case ApproveAudit(who) => HasPass(passes, who)
    case DenyAudit(who) => row.status == Denied && row.approver == Some(who)
    case ExecuteAudit(_, names) => row.status == Executed && names == Named(row, ledger)
    case FailureAudit(_) => row.status == Failed
  }

  ghost predicate AuditOk(row: Row, ledger: seq<string>, passes: seq<Pass>, audit: seq<AuditRow>) {
    forall i | 0 <= i < |audit| :: AuditRowOk(row, ledger, passes, audit[i])
  }

  ghost predicate SharedOk(registry: Registry, g: Shared) {
    && IntentOk(registry, g.row.intent, g.captured)
    && QuorumOk(g.row, g.ledger, g.passes)
    && PassesOk(registry, g.row.intent, g.ledger, g.passes)
    && Versioned(g.captured, g.target, g.writes)
    && EffectsOk(registry, g.row.intent, g.captured, g.audit, g.claimant, g.effects)
    && ClaimOk(g.row.status, g.claimant, g.effects, g.secret)
    && DeliveryOk(g.row, g.secret, g.deliveries)
    && DenialOk(g.row)
    && AuditOk(g.row, g.ledger, g.passes, g.audit)
  }

  // ---- invariant of one run ------------------------------------------------

  /** What an approver knows on its way to the execution claim. */
  ghost predicate ApproverOk(g: Shared, op: Op) {
    var intent := g.row.intent;
    match op.pc
    case Checking(seen) => seen.intent == intent
    case Previewing(view, at) =>
      && at <= g.clock && (view == Pending || view == Approved) && (view == Pending ==> at < intent.expiresAt)
      && MeetsBar(intent.bar, intent.createdAt, op.actor, op.session, at)
    case Deciding(view, at) =>
      at <= g.clock && (view == Pending || view == Approved) && HasPass(g.passes, op.actor.sub)
    case AuditingPartial => HasPass(g.passes, op.actor.sub)
    case AuditingApproval => HasPass(g.passes, op.actor.sub)
    case Claiming => ApproveAudit(op.actor.sub) in g.audit
    case _ => true
  }

  /** What a denier or a secret reader knows. */
  ghost predicate ServerOk(g: Shared, op: Op) {
    var status, maker := g.row.status, g.row.intent.requestedBy;
    match op.pc
    case Denying(reason, at) => at <= g.clock && !IsBlank(reason)
    case AuditingDenial => status == Denied && g.row.approver == Some(op.actor.sub)
    case Peeking => status == Executed && op.actor.sub == maker
    case Decrypting(envelope) =>
      status == Executed && op.actor.sub == maker && g.secret.Some? && g.secret.value.envelope == envelope
    case Burning(plaintext) =>
      status == Executed && op.actor.sub == maker && g.secret.Some? && g.secret.value.envelope.plaintext == plaintext
    case _ => true
  }

  /** What a run that holds the claim knows, before and after it settles the row. */
  ghost predicate ExecutorOk(registry: Registry, g: Shared, id: nat, op: Op)
    requires g.row.intent.action in registry
  {
    var intent, status := g.row.intent, g.row.status;
    var mine := g.claimant == Some(id);
    match op.pc
    case Resolving => g.effects == []
    case Rechecking => g.effects == []
    case Running(rechecked) =>
      && g.effects == []
      && (intent.token.Some? ==> Capture(registry[intent.action], rechecked) == intent.token)
    case StoringSecret(secret) =>
      g.secret.None? && |g.effects| == 1 && g.effects[0].secret == Some(secret) && g.effects[0].reported
    case MarkingExecuted => |g.effects| == 1 && g.effects[0].reported && (g.effects[0].secret.Some? ==> g.secret.Some?)
    case Listing => mine && status == Executed && intent.bar.required > 1
    case AuditingExecution(names) => mine && status == Executed && names == Named(g.row, g.ledger)
    case AuditingFailure => mine && status == Failed
    case _ => true
  }

  /** What the end of a run stands for. */
  ghost predicate OutcomeOk(g: Shared, id: nat, op: Op)
    requires op.pc.Finished?
  {
    var mine := g.claimant == Some(id);
    match op.pc.outcome
    case Succeeded => mine && g.row.status == Executed && ExecuteAudit(op.actor.sub, Named(g.row, g.ledger)) in g.audit
    case RunFailed => mine && g.row.status == Failed && FailureAudit(op.actor.sub) in g.audit
    case DenialRecorded => !mine && DenyAudit(op.actor.sub) in g.audit
    case Delivered(secret) => !mine && Delivery(op.actor.sub, secret) in g.deliveries
    case Faulted => true
    case _ => !mine
  }

  ghost predicate RunOk(registry: Registry, g: Shared, id: nat, op: Op)
    requires g.row.intent.action in registry
  {
    var mine := g.claimant == Some(id);
    && (Unclaimed(op.pc) ==> !mine)
    && (Admitted(op.pc) || mine ==> op.actor.tenant == g.row.intent.tenant)
    && (Holding(op.pc) ==> mine && g.row.status == Executing)
    && (mine ==> ApproveAudit(op.actor.sub) in g.audit)
    && (mine && g.effects != [] ==> ApprovedBy(g.audit, g.effects[0].audited, op.actor.sub))
    && (mine && g.row.status == Executing ==> Holding(op.pc) || op.pc == Finished(Faulted))
    && (if Approving(op.pc) then ApproverOk(g, op)
        else if Serving(op.pc) then ServerOk(g, op)
        else if op.pc.Finished? then OutcomeOk(g, id, op)
        else ExecutorOk(registry, g, id, op))
  }

  ghost predicate Inv(registry: Registry, s: State) {
    && SharedOk(registry, s.shared)
    && (s.shared.claimant.Some? ==> s.shared.claimant.value in s.ops)
    && forall id | id in s.ops :: RunOk(registry, s.shared, id, s.ops[id])
  }

  // ---- what a step may do to the state of others ---------------------------

  ghost predicate SameSecret(a: Option<StoredSecret>, b: Option<StoredSecret>) {
    a.Some? == b.Some? && (a.Some? ==> a.value.envelope == b.value.envelope)
  }

  /** `b` is `a`, or `a` with one more element. */
  predicate Grown<T(==)>(a: seq<T>, b: seq<T>) {
    b == a || (|b| == |a| + 1 && b[..|a|] == a)
  }

  /** Guaranteed to every run by a step of another run, or of the environment (`mover` absent). */
  ghost predicate Evolves(g: Shared, g': Shared, mover: Option<nat>) {
    && g'.row.intent == g.row.intent && g'.captured == g.captured
    && Grown(g.passes, g'.passes) && Grown(g.audit, g'.audit) && Grown(g.ledger, g'.ledger)
    && Grown(g.effects, g'.effects) && Grown(g.deliveries, g'.deliveries)
    && g.clock <= g'.clock
    && (g.claimant.Some? ==> g'.claimant == g.claimant && g'.ledger == g.ledger)
    && (g.claimant.None? && g'.claimant.Some? ==> g'.claimant == mover)
    && (g.claimant.Some? && g.claimant != mover ==>
          g'.row == g.row && g'.effects == g.effects && SameSecret(g.secret, g'.secret))
    && (g.row.status in {Executed, Failed, Denied} ==> g'.row == g.row)
    && (g.row.status == Executed ==> SameSecret(g.secret, g'.secret))
  }

  lemma HasPassMonotone(passes: seq<Pass>, more: seq<Pass>, sub: string)
    requires Grown(passes, more) && HasPass(passes, sub)
    ensures HasPass(more, sub)
  {
  }

  /** No run is disturbed by what another one does. */
  lemma RunUndisturbed(registry: Registry, g: Shared, g': Shared, mover: Option<nat>, id: nat, op: Op)
    requires SharedOk(registry, g) && RunOk(registry, g, id, op)
    requires Evolves(g, g', mover) && mover != Some(id)
    ensures RunOk(registry, g', id, op)
  {
  }

  // ---- every step keeps the invariant --------------------------------------

  /** What every step does to the shared state. */
  ghost predicate SharedKept(registry: Registry, g: Shared, g': Shared, id: nat) {
    SharedOk(registry, g') && Evolves(g, g', Some(id))
  }

  /** What every step does for the run that takes it. */
  ghost predicate RunKept(registry: Registry, g: Shared, id: nat, op: Op, m: Move) {
    m.shared.row.intent == g.row.intent && m.shared.row.intent.action in registry
    && RunOk(registry, m.shared, id, op.(pc := m.pc))
  }

  lemma {:induction false} SharedSame(registry: Registry, g: Shared, id: nat)
    requires SharedOk(registry, g)
    ensures SharedKept(registry, g, g, id)
  {
  }

  lemma {:induction false} SharedRecord(registry: Registry, g: Shared, id: nat, a: AuditRow)
    requires SharedOk(registry, g)
    requires AuditRowOk(g.row, g.ledger, g.passes, a)
    ensures SharedKept(registry, g, Record(g, a), id)
  {
    var audit := Record(g, a).audit;
    assert audit[..|g.audit|] == g.audit;
    forall i | 0 <= i < |g.effects|
      ensures EffectOk(registry, g.row.intent, g.captured, audit, g.claimant, g.effects[i])
    {
      assert EffectOk(registry, g.row.intent, g.captured, g.audit, g.claimant, g.effects[i]);
      assert audit[..g.effects[i].audited] == g.audit[..g.effects[i].audited];
    }
  }

  lemma {:induction false} SharedAttempt(registry: Registry, g: Shared, id: nat, a: AuditRow, c: Chance, next: Pc)
    requires SharedOk(registry, g)
    requires AuditRowOk(g.row, g.ledger, g.passes, a)
    ensures SharedKept(registry, g, Attempt(c.fault, g, Record(g, a), next).shared, id)
  {
    if c.fault == LostBefore {
      SharedSame(registry, g, id);
    } else {
      SharedRecord(registry, g, id, a);
    }
  }

  lemma {:induction false} SharedPreview(registry: Registry, g: Shared, id: nat, op: Op, c: Chance)
    requires SharedOk(registry, g) && RunOk(registry, g, id, op) && op.pc.Previewing?
    ensures SharedKept(registry, g, Preview(registry, g, op, op.pc.view, op.pc.at, c).shared, id)
  {
    var passes := Preview(registry, g, op, op.pc.view, op.pc.at, c).shared.passes;
    if passes != g.passes {
      assert passes[..|g.passes|] == g.passes;
      forall sub | HasPass(g.passes, sub) ensures HasPass(passes, sub) {
        HasPassMonotone(g.passes, passes, sub);
      }
    }
  }

  /** Recording one approval keeps the quorum exact, and flips the row only when it counted. */
  lemma QuorumRecords(row: Row, ledger: seq<string>, passes: seq<Pass>, sub: string, begun: int, now: int)
    requires QuorumOk(row, ledger, passes) && HasPass(passes, sub) && row.intent.bar.required > 1 && begun <= now
    ensures var p := RecordApproval(row, ledger, sub, begun, now);
            && QuorumOk(p.row, p.ledger, passes)
            && Grown(ledger, p.ledger)
            && p.row.intent == row.intent
            && (p.row == row || (row.status == Pending && p.row.status == Approved))
            && (row.status != Pending ==> p.ledger == ledger)
            && (p.flipped ==> p.counted)
            && (forall x | x in p.ledger :: x in ledger || x == sub)
  {
  }

  lemma {:induction false} SharedRecordOne(registry: Registry, g: Shared, id: nat, op: Op, c: Chance)
    requires SharedOk(registry, g) && RunOk(registry, g, id, op) && op.pc.Deciding? && op.pc.view == Pending
    requires g.row.intent.bar.required > 1 && op.pc.at <= g.clock
    ensures SharedKept(registry, g, RecordOne(g, op, op.pc.at, c).shared, id)
  {
    var begun := Begun(g, c, op.pc.at);
    QuorumRecords(g.row, g.ledger, g.passes, op.actor.sub, begun, g.clock);
    var g' := RecordOne(g, op, op.pc.at, c).shared;
    if c.fault == LostBefore {
      SharedSame(registry, g, id);
    } else {
      assert QuorumOk(g'.row, g'.ledger, g'.passes);
      assert PassesOk(registry, g'.row.intent, g'.ledger, g'.passes);
    }
  }

  lemma {:induction false} SharedDecide(registry: Registry, g: Shared, id: nat, op: Op, c: Chance)
    requires SharedOk(registry, g) && RunOk(registry, g, id, op) && op.pc.Deciding?
    requires g.row.intent.bar.required == 1
    ensures SharedKept(registry, g, Decide(g, op, op.pc.view, op.pc.at, c).shared, id)
  {
    var g' := Decide(g, op, op.pc.view, op.pc.at, c).shared;
    if g' == g {
      SharedSame(registry, g, id);
    } else {
      assert QuorumOk(g'.row, g'.ledger, g'.passes);
    }
  }

  lemma {:induction false} SharedClaim(registry: Registry, g: Shared, id: nat, op: Op, c: Chance)
    requires SharedOk(registry, g) && RunOk(registry, g, id, op) && op.pc.Claiming?
    ensures SharedKept(registry, g, Claim(g, id, c).shared, id)
  {
    if Claim(g, id, c).shared == g {
      SharedSame(registry, g, id);
    }
  }

  lemma {:induction false} SharedExecute(registry: Registry, g: Shared, id: nat, op: Op, c: Chance)
    requires SharedOk(registry, g) && RunOk(registry, g, id, op) && op.pc.Running?
    ensures SharedKept(registry, g, Execute(registry, g, id, op.pc.rechecked, c).shared, id)
  {
    assert g.audit[..|g.audit|] == g.audit;
  }

  lemma {:induction false} SharedStoreSecret(registry: Registry, g: Shared, id: nat, op: Op, c: Chance)
    requires SharedOk(registry, g) && RunOk(registry, g, id, op) && op.pc.StoringSecret?
    ensures SharedKept(registry, g, StoreSecret(g, op.pc.secret, c).shared, id)
  {
  }

  lemma {:induction false} SharedFinishExecuted(registry: Registry, g: Shared, id: nat, op: Op, c: Chance)
    requires SharedOk(registry, g) && RunOk(registry, g, id, op) && op.pc.MarkingExecuted?
    ensures SharedKept(registry, g, FinishExecuted(g, c).shared, id)
  {
    var g' := FinishExecuted(g, c).shared;
    if g' == g {
      SharedSame(registry, g, id);
    } else {
      assert g' == g.(row := g.row.(status := Executed, outcome := Some(c.text)));
      assert QuorumOk(g'.row, g'.ledger, g'.passes);
      assert ClaimOk(g'.row.status, g'.claimant, g'.effects, g'.secret);
      assert AuditOk(g'.row, g'.ledger, g'.passes, g'.audit);
    }
  }

  lemma {:induction false} SharedFinishFailed(registry: Registry, g: Shared, id: nat, op: Op, c: Chance)
    requires SharedOk(registry, g) && RunOk(registry, g, id, op) && op.pc.MarkingFailed?
    ensures SharedKept(registry, g, FinishFailed(g, c).shared, id)
  {
  }

  lemma {:induction false} SharedDenial(registry: Registry, g: Shared, id: nat, op: Op, c: Chance)
    requires SharedOk(registry, g) && RunOk(registry, g, id, op) && op.pc.Denying?
    ensures SharedKept(registry, g, DecideDenial(g, op, op.pc.reason, op.pc.at, c).shared, id)
  {
    var g' := DecideDenial(g, op, op.pc.reason, op.pc.at, c).shared;
    if g' == g {
      SharedSame(registry, g, id);
    } else {
      assert g' == g.(row := g'.row) && g.row.status == Pending && g'.row.status == Denied;
      assert QuorumOk(g'.row, g'.ledger, g'.passes) && DenialOk(g'.row);
    }
  }

  lemma {:induction false} SharedBurn(registry: Registry, g: Shared, id: nat, op: Op, c: Chance)
    requires SharedOk(registry, g) && RunOk(registry, g, id, op) && op.pc.Burning?
    ensures SharedKept(registry, g, Burn(g, op, op.pc.plaintext, c).shared, id)
  {
    var g' := Burn(g, op, op.pc.plaintext, c).shared;
    if g' == g {
      SharedSame(registry, g, id);
    } else {
      assert g' == g.(secret := g'.secret, deliveries := g'.deliveries) && SameSecret(g.secret, g'.secret);
      assert DeliveryOk(g'.row, g'.secret, g'.deliveries);
      assert ClaimOk(g'.row.status, g'.claimant, g'.effects, g'.secret);
      assert SharedOk(registry, g');
    }
  }

  // ---- and the run that takes it ------------------------------------------

  lemma AuditGrows(audit: seq<AuditRow>, a: AuditRow, n: nat, sub: string)
    ensures var more := audit + [a];
            && a in more && (ApproveAudit(sub) in audit ==> ApproveAudit(sub) in more)
            && (ApprovedBy(audit, n, sub) ==> ApprovedBy(more, n, sub))
  {
    if n <= |audit| {
      assert (audit + [a])[..n] == audit[..n];
    }
  }

  lemma {:induction false} RunLoad(registry: Registry, g: Shared, id: nat, op: Op, c: Chance)
    requires SharedOk(registry, g) && RunOk(registry, g, id, op) && op.pc.Loading?
    ensures RunKept(registry, g, id, op, Load(g, op, c))
  {
  }

  lemma {:induction false} RunCheck(registry: Registry, g: Shared, id: nat, op: Op, c: Chance)
    requires SharedOk(registry, g) && RunOk(registry, g, id, op) && op.pc.Checking?
    ensures RunKept(registry, g, id, op, Check(g, op, op.pc.seen))
  {
    EnforceOkExactly(op.pc.seen.intent.bar, op.pc.seen.intent.createdAt, op.actor, op.session, g.clock);
  }

  lemma {:induction false} RunPreview(registry: Registry, g: Shared, id: nat, op: Op, c: Chance)
    requires SharedOk(registry, g) && RunOk(registry, g, id, op) && op.pc.Previewing?
    ensures RunKept(registry, g, id, op, Preview(registry, g, op, op.pc.view, op.pc.at, c))
  {
    var m := Preview(registry, g, op, op.pc.view, op.pc.at, c);
    if m.pc.Deciding? {
      assert m.shared.passes[|g.passes|].actor.sub == op.actor.sub;
    }
  }

  lemma {:induction false} RunRecordOne(registry: Registry, g: Shared, id: nat, op: Op, c: Chance)
    requires SharedOk(registry, g) && RunOk(registry, g, id, op) && op.pc.Deciding?
    ensures RunKept(registry, g, id, op, RecordOne(g, op, op.pc.at, c))
  {
    var m := RecordOne(g, op, op.pc.at, c);
    assert m.pc.AuditingApproval? || m.pc.AuditingPartial? || m.pc == Finished(Partial) || m.pc == Finished(Faulted);
  }

  lemma {:induction false} RunDecide(registry: Registry, g: Shared, id: nat, op: Op, c: Chance)
    requires SharedOk(registry, g) && RunOk(registry, g, id, op) && op.pc.Deciding?
    requires op.pc.view == Approved || g.row.intent.bar.required == 1
    ensures RunKept(registry, g, id, op, Decide(g, op, op.pc.view, op.pc.at, c))
  {
  }

  lemma {:induction false} RunAuditPartial(registry: Registry, g: Shared, id: nat, op: Op, c: Chance)
    requires SharedOk(registry, g) && RunOk(registry, g, id, op) && op.pc.AuditingPartial?
    ensures RunKept(registry, g, id, op, Attempt(c.fault, g, Record(g, ApproveAudit(op.actor.sub)), Finished(Partial)))
  {
  }

  lemma {:induction false} RunAuditApproval(registry: Registry, g: Shared, id: nat, op: Op, c: Chance)
    requires SharedOk(registry, g) && RunOk(registry, g, id, op) && op.pc.AuditingApproval?
    ensures RunKept(registry, g, id, op, Attempt(c.fault, g, Record(g, ApproveAudit(op.actor.sub)), Claiming))
  {
    var audit := Record(g, ApproveAudit(op.actor.sub)).audit;
    assert audit[|g.audit|].ApproveAudit?;
  }

  lemma {:induction false} RunClaim(registry: Registry, g: Shared, id: nat, op: Op, c: Chance)
    requires SharedOk(registry, g) && RunOk(registry, g, id, op) && op.pc.Claiming?
    ensures RunKept(registry, g, id, op, Claim(g, id, c))
  {
  }

  lemma {:induction false} RunResolve(registry: Registry, g: Shared, id: nat, op: Op, c: Chance)
    requires SharedOk(registry, g) && RunOk(registry, g, id, op) && op.pc.Resolving?
    ensures RunKept(registry, g, id, op, Resolve(registry, g))
  {
  }

  lemma {:induction false} RunRecheck(registry: Registry, g: Shared, id: nat, op: Op, c: Chance)
    requires SharedOk(registry, g) && RunOk(registry, g, id, op) && op.pc.Rechecking?
    ensures RunKept(registry, g, id, op, Recheck(registry, g, c))
  {
  }

  lemma {:induction false} RunExecute(registry: Registry, g: Shared, id: nat, op: Op, c: Chance)
    requires SharedOk(registry, g) && RunOk(registry, g, id, op) && op.pc.Running?
    ensures RunKept(registry, g, id, op, Execute(registry, g, id, op.pc.rechecked, c))
  {
  }

  lemma {:induction false} RunStoreSecret(registry: Registry, g: Shared, id: nat, op: Op, c: Chance)
    requires SharedOk(registry, g) && RunOk(registry, g, id, op) && op.pc.StoringSecret?
    ensures RunKept(registry, g, id, op, StoreSecret(g, op.pc.secret, c))
  {
  }

  lemma {:induction false} RunFinishExecuted(registry: Registry, g: Shared, id: nat, op: Op, c: Chance)
    requires SharedOk(registry, g) && RunOk(registry, g, id, op) && op.pc.MarkingExecuted?
    ensures RunKept(registry, g, id, op, FinishExecuted(g, c))
  {
  }

  lemma {:induction false} RunList(registry: Registry, g: Shared, id: nat, op: Op, c: Chance)
    requires SharedOk(registry, g) && RunOk(registry, g, id, op) && op.pc.Listing?
    ensures RunKept(registry, g, id, op, ListApprovers(g, c))
  {
  }

  /** A run whose call was lost knows nothing it has to keep up. */
  lemma FaultedIsOk(registry: Registry, g: Shared, id: nat, op: Op)
    requires SharedOk(registry, g) && RunOk(registry, g, id, op)
    ensures RunOk(registry, g, id, op.(pc := Finished(Faulted)))
  {
  }

  /** An audit row disturbs nobody, not even the run that writes it. */
  lemma AuditKeepsRun(registry: Registry, g: Shared, id: nat, op: Op, a: AuditRow)
    requires SharedOk(registry, g) && RunOk(registry, g, id, op) && op.pc == Finished(Faulted)
    ensures RunOk(registry, Record(g, a), id, op)
  {
    AuditGrows(g.audit, a, if g.effects != [] then g.effects[0].audited else 0, op.actor.sub);
  }

  /** The run that settled the row ends, with its audit row written. */
  lemma SettledIsOk(registry: Registry, g: Shared, id: nat, op: Op, done: Outcome)
    requires g.row.intent.action in registry && g.row.status != Executing && g.claimant == Some(id)
    requires RunOk(registry, g, id, op) && op.pc == Finished(Faulted) && OutcomeOk(g, id, op.(pc := Finished(done)))
    ensures RunOk(registry, g, id, op.(pc := Finished(done)))
  {
  }

  lemma {:induction false} RunAuditExecution(registry: Registry, g: Shared, id: nat, op: Op, c: Chance)
    requires SharedOk(registry, g) && RunOk(registry, g, id, op) && op.pc.AuditingExecution?
    ensures RunKept(registry, g, id, op, Attempt(c.fault, g, Record(g, ExecuteAudit(op.actor.sub, op.pc.names)), Finished(Succeeded)))
  {
    FaultedIsOk(registry, g, id, op);
    var a, lost := ExecuteAudit(op.actor.sub, op.pc.names), op.(pc := Finished(Faulted));
    AuditKeepsRun(registry, g, id, lost, a);
    assert a in Record(g, a).audit;
    SettledIsOk(registry, Record(g, a), id, lost, Succeeded);
  }

  lemma {:induction false} RunFinishFailed(registry: Registry, g: Shared, id: nat, op: Op, c: Chance)
    requires SharedOk(registry, g) && RunOk(registry, g, id, op) && op.pc.MarkingFailed?
    ensures RunKept(registry, g, id, op, FinishFailed(g, c))
  {
  }

  lemma {:induction false} RunAuditFailure(registry: Registry, g: Shared, id: nat, op: Op, c: Chance)
    requires SharedOk(registry, g) && RunOk(registry, g, id, op) && op.pc.AuditingFailure?
    ensures RunKept(registry, g, id, op, Attempt(c.fault, g, Record(g, FailureAudit(op.actor.sub)), Finished(RunFailed)))
  {
    FaultedIsOk(registry, g, id, op);
    var a, lost := FailureAudit(op.actor.sub), op.(pc := Finished(Faulted));
    AuditKeepsRun(registry, g, id, lost, a);
    assert a in Record(g, a).audit;
    SettledIsOk(registry, Record(g, a), id, lost, RunFailed);
  }

  lemma {:induction false} RunDenyLoad(registry: Registry, g: Shared, id: nat, op: Op, c: Chance)
    requires SharedOk(registry, g) && RunOk(registry, g, id, op) && op.pc.DenyLoading?
    ensures RunKept(registry, g, id, op, DenyLoad(g, op, op.pc.reason, c))
  {
  }

  lemma {:induction false} RunDenial(registry: Registry, g: Shared, id: nat, op: Op, c: Chance)
    requires SharedOk(registry, g) && RunOk(registry, g, id, op) && op.pc.Denying?
    ensures RunKept(registry, g, id, op, DecideDenial(g, op, op.pc.reason, op.pc.at, c))
  {
  }

  lemma {:induction false} RunAuditDenial(registry: Registry, g: Shared, id: nat, op: Op, c: Chance)
    requires SharedOk(registry, g) && RunOk(registry, g, id, op) && op.pc.AuditingDenial?
    ensures RunKept(registry, g, id, op, Attempt(c.fault, g, Record(g, DenyAudit(op.actor.sub)), Finished(DenialRecorded)))
  {
  }

  lemma {:induction false} RunReadLoad(registry: Registry, g: Shared, id: nat, op: Op, c: Chance)
    requires SharedOk(registry, g) && RunOk(registry, g, id, op) && op.pc.ReadLoading?
    ensures RunKept(registry, g, id, op, ReadLoad(g, op, c))
  {
  }

  lemma {:induction false} RunPeek(registry: Registry, g: Shared, id: nat, op: Op, c: Chance)
    requires SharedOk(registry, g) && RunOk(registry, g, id, op) && op.pc.Peeking?
    ensures RunKept(registry, g, id, op, Peek(g, c))
  {
  }

  lemma {:induction false} RunDecrypt(registry: Registry, g: Shared, id: nat, op: Op, c: Chance)
    requires SharedOk(registry, g) && RunOk(registry, g, id, op) && op.pc.Decrypting?
    ensures RunKept(registry, g, id, op, Decrypt(g, op.pc.envelope, c))
  {
  }

  lemma {:induction false} RunBurn(registry: Registry, g: Shared, id: nat, op: Op, c: Chance)
    requires SharedOk(registry, g) && RunOk(registry, g, id, op) && op.pc.Burning?
    ensures RunKept(registry, g, id, op, Burn(g, op, op.pc.plaintext, c))
  {
  }

  // ---- the whole system ----------------------------------------------------

  ghost predicate TurnKept(registry: Registry, g: Shared, id: nat, op: Op, m: Move) {
    SharedKept(registry, g, m.shared, id) && RunKept(registry, g, id, op, m)
  }

  lemma {:induction false} SharedDeciding(registry: Registry, g: Shared, id: nat, op: Op, c: Chance)
    requires SharedOk(registry, g) && RunOk(registry, g, id, op) && op.pc.Deciding?
    ensures SharedKept(registry, g, Decide(g, op, op.pc.view, op.pc.at, c).shared, id)
  {
    if op.pc.view == Approved {
      SharedSame(registry, g, id);
    } else if g.row.intent.bar.required > 1 {
      SharedRecordOne(registry, g, id, op, c);
    } else {
      SharedDecide(registry, g, id, op, c);
    }
  }

  lemma {:induction false} ApproveTurnShared(registry: Registry, g: Shared, id: nat, op: Op, c: Chance)
    requires SharedOk(registry, g) && RunOk(registry, g, id, op)
    ensures SharedKept(registry, g, ApproveTurn(registry, g, id, op, c).shared, id)
  {
    SharedSame(registry, g, id);
    match op.pc
    case Previewing(_, _) => SharedPreview(registry, g, id, op, c);
    case Deciding(_, _) => SharedDeciding(registry, g, id, op, c);
    case AuditingPartial => SharedAttempt(registry, g, id, ApproveAudit(op.actor.sub), c, Finished(Partial));
    case AuditingApproval => SharedAttempt(registry, g, id, ApproveAudit(op.actor.sub), c, Claiming);
    case Claiming => SharedClaim(registry, g, id, op, c);
    case _ =>
  }

  lemma {:induction false} ApproveTurnRun(registry: Registry, g: Shared, id: nat, op: Op, c: Chance)
    requires SharedOk(registry, g) && RunOk(registry, g, id, op)
    ensures RunKept(registry, g, id, op, ApproveTurn(registry, g, id, op, c))
  {
    match op.pc
    case Loading => RunLoad(registry, g, id, op, c);
    case Checking(_) => RunCheck(registry, g, id, op, c);
    case Previewing(_, _) => RunPreview(registry, g, id, op, c);
    case Deciding(view, at) =>
      if view == Pending && g.row.intent.bar.required > 1 {
        RunRecordOne(registry, g, id, op, c);
      } else {
        RunDecide(registry, g, id, op, c);
      }
    case AuditingPartial => RunAuditPartial(registry, g, id, op, c);
    case AuditingApproval => RunAuditApproval(registry, g, id, op, c);
    case Claiming => RunClaim(registry, g, id, op, c);
    case _ =>
  }

  lemma {:induction false} ExecuteTurnShared(registry: Registry, g: Shared, id: nat, op: Op, c: Chance)
    requires SharedOk(registry, g) && RunOk(registry, g, id, op)
    ensures SharedKept(registry, g, ExecuteTurn(registry, g, id, op, c).shared, id)
  {
    SharedSame(registry, g, id);
    match op.pc
    case Running(_) => SharedExecute(registry, g, id, op, c);
    case StoringSecret(_) => SharedStoreSecret(registry, g, id, op, c);
    case MarkingExecuted => SharedFinishExecuted(registry, g, id, op, c);
    case AuditingExecution(names) => SharedAttempt(registry, g, id, ExecuteAudit(op.actor.sub, names), c, Finished(Succeeded));
    case MarkingFailed => SharedFinishFailed(registry, g, id, op, c);
    case AuditingFailure => SharedAttempt(registry, g, id, FailureAudit(op.actor.sub), c, Finished(RunFailed));
    case _ =>
  }

  lemma {:induction false} ExecuteTurnRun(registry: Registry, g: Shared, id: nat, op: Op, c: Chance)
    requires SharedOk(registry, g) && RunOk(registry, g, id, op)
    ensures RunKept(registry, g, id, op, ExecuteTurn(registry, g, id, op, c))
  {
    match op.pc
    case Resolving => RunResolve(registry, g, id, op, c);
    case Rechecking => RunRecheck(registry, g, id, op, c);
    case Running(_) => RunExecute(registry, g, id, op, c);
    case StoringSecret(_) => RunStoreSecret(registry, g, id, op, c);
    case MarkingExecuted => RunFinishExecuted(registry, g, id, op, c);
    case Listing => RunList(registry, g, id, op, c);
    case AuditingExecution(_) => RunAuditExecution(registry, g, id, op, c);
    case MarkingFailed => RunFinishFailed(registry, g, id, op, c);
    case AuditingFailure => RunAuditFailure(registry, g, id, op, c);
    case _ =>
  }

  lemma ServingIsMostlyQuiet(g: Shared, op: Op, c: Chance)
    requires !op.pc.Denying? && !op.pc.AuditingDenial? && !op.pc.Burning?
    ensures OtherTurn(g, op, c).shared == g
  {
  }

  lemma {:induction false} OtherTurnShared(registry: Registry, g: Shared, id: nat, op: Op, c: Chance)
    requires SharedOk(registry, g) && RunOk(registry, g, id, op)
    ensures SharedKept(registry, g, OtherTurn(g, op, c).shared, id)
  {
    if op.pc.Denying? {
      SharedDenial(registry, g, id, op, c);
    } else if op.pc.AuditingDenial? {
      SharedAttempt(registry, g, id, DenyAudit(op.actor.sub), c, Finished(DenialRecorded));
    } else if op.pc.Burning? {
      SharedBurn(registry, g, id, op, c);
    } else {
      ServingIsMostlyQuiet(g, op, c);
      SharedSame(registry, g, id);
    }
  }

  lemma {:induction false} OtherTurnRun(registry: Registry, g: Shared, id: nat, op: Op, c: Chance)
    requires SharedOk(registry, g) && RunOk(registry, g, id, op)
    ensures RunKept(registry, g, id, op, OtherTurn(g, op, c))
  {
    if op.pc.DenyLoading? {
      RunDenyLoad(registry, g, id, op, c);
    } else if op.pc.Denying? {
      RunDenial(registry, g, id, op, c);
    } else if op.pc.AuditingDenial? {
      RunAuditDenial(registry, g, id, op, c);
    } else {
      ReadTurnRun(registry, g, id, op, c);
    }
  }

  lemma {:induction false} ReadTurnRun(registry: Registry, g: Shared, id: nat, op: Op, c: Chance)
    requires SharedOk(registry, g) && RunOk(registry, g, id, op)
    requires !op.pc.DenyLoading? && !op.pc.Denying? && !op.pc.AuditingDenial?
    ensures RunKept(registry, g, id, op, OtherTurn(g, op, c))
  {
    match op.pc
    case ReadLoading => RunReadLoad(registry, g, id, op, c);
    case Peeking => RunPeek(registry, g, id, op, c);
    case Decrypting(_) => RunDecrypt(registry, g, id, op, c);
    case Burning(_) => RunBurn(registry, g, id, op, c);
    case _ =>
  }

  lemma {:induction false} EveryTurnKept(registry: Registry, g: Shared, id: nat, op: Op, c: Chance)
    requires SharedOk(registry, g) && RunOk(registry, g, id, op)
    ensures TurnKept(registry, g, id, op, Turn(registry, g, id, op, c))
  {
    if Approving(op.pc) {
      ApproveTurnShared(registry, g, id, op, c);
      ApproveTurnRun(registry, g, id, op, c);
    } else if Serving(op.pc) {
      OtherTurnShared(registry, g, id, op, c);
      OtherTurnRun(registry, g, id, op, c);
    } else {
      ExecuteTurnShared(registry, g, id, op, c);
      ExecuteTurnRun(registry, g, id, op, c);
    }
  }

  /** The clock, the keys and the target move without any run. */
  lemma {:induction false} EnvironmentKept(registry: Registry, s: State, g': Shared)
    requires Inv(registry, s)
    requires g' == s.shared.(clock := g'.clock, target := g'.target, writes := g'.writes, keyring := g'.keyring, activeKey := g'.activeKey)
    requires s.shared.clock <= g'.clock && Versioned(g'.captured, g'.target, g'.writes)
    ensures SharedOk(registry, g') && Evolves(s.shared, g', None) && Inv(registry, State(g', s.ops))
  {
    forall id | id in s.ops ensures RunOk(registry, g', id, s.ops[id]) {
      RunUndisturbed(registry, s.shared, g', None, id, s.ops[id]);
    }
  }

  lemma {:induction false} EnvironmentStepKept(registry: Registry, s: State, a: Action)
    requires Inv(registry, s) && (a.Tick? || a.Edit? || a.Rekey?)
    ensures Inv(registry, Step(registry, s, a)) && Evolves(s.shared, Step(registry, s, a).shared, None)
  {
    EnvironmentKept(registry, s, Step(registry, s, a).shared);
  }

  lemma {:induction false} AdvanceKeepsInv(registry: Registry, s: State, id: nat, c: Chance)
    requires Inv(registry, s) && id in s.ops
    ensures var s' := Step(registry, s, Advance(id, c)); Inv(registry, s') && Evolves(s.shared, s'.shared, Some(id))
  {
    var g, s' := s.shared, Step(registry, s, Advance(id, c));
    EveryTurnKept(registry, g, id, s.ops[id], c);
    forall k | k in s'.ops ensures RunOk(registry, s'.shared, k, s'.ops[k]) {
      if k != id {
        RunUndisturbed(registry, g, s'.shared, Some(id), k, s.ops[k]);
      }
    }
  }

  lemma {:induction false} StartKeepsInv(registry: Registry, s: State, id: nat, op: Op)
    requires Inv(registry, s) && (op.pc.Loading? || op.pc.DenyLoading? || op.pc.ReadLoading?)
    ensures Inv(registry, Start(s, id, op)) && Evolves(s.shared, s.shared, Some(id))
  {
  }

  /** Every action keeps the invariant, and moves the shared state only forward. */
  lemma {:induction false} StepKeepsInv(registry: Registry, s: State, a: Action) returns (mover: Option<nat>)
    requires Inv(registry, s)
    ensures Inv(registry, Step(registry, s, a)) && Evolves(s.shared, Step(registry, s, a).shared, mover)
  {
    match a
    case StartApprove(id, actor, session, acknowledged) =>
      mover := Some(id);
      StartKeepsInv(registry, s, id, Op(actor, session, acknowledged, Loading));
    case StartDeny(id, actor, reason) =>
      mover := Some(id);
      StartKeepsInv(registry, s, id, Op(actor, None, false, DenyLoading(reason)));
    case StartRead(id, actor) =>
      mover := Some(id);
      StartKeepsInv(registry, s, id, Op(actor, None, false, ReadLoading));
    case Advance(id, c) =>
      mover := Some(id);
      if id in s.ops {
        AdvanceKeepsInv(registry, s, id, c);
      }
    case _ =>
      mover := None;
      EnvironmentStepKept(registry, s, a);
  }

  lemma InitInv(registry: Registry, s: State)
    requires Init(registry, s)
    ensures Inv(registry, s)
  {
    var g := s.shared;
    var id, actor, req, readable, now: Instant, createdAt: Instant :|
      Propose(registry, id, actor, req, g.captured, readable, now, createdAt) == Ok(g.row);
    ProposedRowIsSound(registry, id, actor, req, g.captured, readable, now, createdAt);
  }
}
