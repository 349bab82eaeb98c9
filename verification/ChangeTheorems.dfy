/** What the change-request protocol promises, over whole runs of the system. */
module ChangeTheorems {
  import opened Basics
  import opened ApprovalBar
  import opened ChangeStore
  import opened ChangePropose
  import opened ChangeProtocol
  import opened ChangeSafety

  // ---- every reachable state -----------------------------------------------

  /** History only grows, the intent never changes, and a settled row stays as it is. */
  ghost predicate Later(g: Shared, g': Shared) {
    && g'.row.intent == g.row.intent && g'.captured == g.captured && g.clock <= g'.clock
    && g.effects <= g'.effects && g.deliveries <= g'.deliveries && g.audit <= g'.audit
    && (g.row.status in {Executed, Failed, Denied} ==> g'.row == g.row)
  }

  lemma EvolvedIsLater(g: Shared, g': Shared, mover: Option<nat>)
    requires Evolves(g, g', mover)
    ensures Later(g, g')
  {
  }

  lemma NextKeepsInv(registry: Registry, s: State, s': State)
    requires Inv(registry, s) && Next(registry, s, s')
    ensures Inv(registry, s') && Later(s.shared, s'.shared)
  {
    var a :| s' == Step(registry, s, a);
    var mover := StepKeepsInv(registry, s, a);
    EvolvedIsLater(s.shared, s'.shared, mover);
  }

  /** The invariant holds in every state of every run. */
  lemma {:induction false} InvariantHolds(registry: Registry, b: seq<State>, i: nat)
    requires Behavior(registry, b) && i < |b|
    ensures Inv(registry, b[i])
  {
    if i == 0 {
      InitInv(registry, b[0]);
    } else {
      InvariantHolds(registry, b, i - 1);
      InvariantStep(registry, b, i - 1);
    }
  }

  lemma InvariantStep(registry: Registry, b: seq<State>, i: nat)
    requires Behavior(registry, b) && i + 1 < |b| && Inv(registry, b[i])
    ensures Inv(registry, b[i + 1]) && Later(b[i].shared, b[i + 1].shared)
  {
    assert NextAt(registry, b, i);
    NextKeepsInv(registry, b[i], b[i + 1]);
  }

  lemma NextMovesForward(registry: Registry, b: seq<State>, j: nat)
    requires Behavior(registry, b) && j + 1 < |b|
    ensures Later(b[j].shared, b[j + 1].shared)
  {
    InvariantHolds(registry, b, j);
    InvariantStep(registry, b, j);
  }

  lemma LaterStill(g: Shared, g': Shared, g'': Shared)
    requires Later(g, g') && Later(g', g'')
    ensures Later(g, g'')
  {
  }

  lemma {:induction false} RunsMoveForward(registry: Registry, b: seq<State>, i: nat, j: nat)
    requires Behavior(registry, b) && i <= j < |b|
    ensures Later(b[i].shared, b[j].shared)
  {
    if i < j {
      RunsMoveForward(registry, b, i, j - 1);
      NextMovesForward(registry, b, j - 1);
      LaterStill(b[i].shared, b[j - 1].shared, b[j].shared);
    }
  }

  // ---- the side effect -----------------------------------------------------

  /** In every interleaving the side effect runs at most once, and only the run that claimed it ran it. */
  lemma EffectRunsAtMostOnce(registry: Registry, b: seq<State>, i: nat, j: nat)
    requires Behavior(registry, b) && i <= j < |b|
    ensures |b[j].shared.effects| <= 1
    ensures b[i].shared.effects != [] ==> b[j].shared.effects == b[i].shared.effects
    ensures forall k | 0 <= k < |b[j].shared.effects| :: b[j].shared.claimant == Some(b[j].shared.effects[k].run)
  {
    InvariantHolds(registry, b, j);
    RunsMoveForward(registry, b, i, j);
  }

  /** Once denied, a change stays denied and its side effect never runs. */
  lemma DenialIsFinal(registry: Registry, b: seq<State>, i: nat, j: nat)
    requires Behavior(registry, b) && i <= j < |b| && b[i].shared.row.status == Denied
    ensures b[j].shared.row == b[i].shared.row && b[j].shared.effects == []
  {
    InvariantHolds(registry, b, j);
    RunsMoveForward(registry, b, i, j);
  }

  /** An approver that saw the request open and whose deciding statement may have begun before the expiry. */
  predicate CanWin(g: Shared, op: Op) {
    op.pc.Deciding? && op.pc.view == Pending && op.pc.at < g.row.intent.expiresAt
  }

  /** The request lapsed undecided, and no approval can still win. */
  ghost predicate Lapsed(registry: Registry, s: State) {
    var row := s.shared.row;
    && row.intent.action in registry
    && (row.status == Pending || row.status == Denied)
    && s.shared.clock >= row.intent.expiresAt
    && (row.intent.bar.required > 1 || forall id | id in s.ops :: !CanWin(s.shared, s.ops[id]))
  }

  /** An approver's step on a lapsed request neither approves it nor comes to decide in time. */
  lemma {:induction false} LapsedApproveTurn(registry: Registry, g: Shared, id: nat, op: Op, c: Chance)
    requires SharedOk(registry, g) && RunOk(registry, g, id, op) && Approving(op.pc)
    requires g.row.status == Pending || g.row.status == Denied
    requires g.clock >= g.row.intent.expiresAt && (g.row.intent.bar.required > 1 || !CanWin(g, op))
    ensures var m := ApproveTurn(registry, g, id, op, c);
            && m.shared.row.intent == g.row.intent
            && (m.shared.row.status == Pending || m.shared.row.status == Denied)
            && (g.row.intent.bar.required > 1 || !CanWin(m.shared, op.(pc := m.pc)))
  {
    if op.pc.Deciding? && op.pc.view == Pending && g.row.intent.bar.required > 1 {
      QuorumRecords(g.row, g.ledger, g.passes, op.actor.sub, Begun(g, c, op.pc.at), g.clock);
    }
  }

  lemma {:induction false} OthersLeaveItLapsed(registry: Registry, g: Shared, id: nat, op: Op, c: Chance)
    requires g.row.intent.action in registry && !Approving(op.pc)
    requires (g.row.status == Pending || g.row.status == Denied) && g.claimant != Some(id)
    requires Holding(op.pc) ==> g.claimant == Some(id)
    ensures var m := Turn(registry, g, id, op, c);
            && m.shared.row.intent == g.row.intent && !m.pc.Deciding?
            && (m.shared.row.status == Pending || m.shared.row.status == Denied)
  {
  }

  lemma {:induction false} LapsedTurn(registry: Registry, g: Shared, id: nat, op: Op, c: Chance)
    requires SharedOk(registry, g) && RunOk(registry, g, id, op)
    requires g.row.status == Pending || g.row.status == Denied
    requires g.clock >= g.row.intent.expiresAt && (g.row.intent.bar.required > 1 || !CanWin(g, op))
    ensures var m := Turn(registry, g, id, op, c);
            && m.shared.row.intent == g.row.intent
            && (m.shared.row.status == Pending || m.shared.row.status == Denied)
            && (g.row.intent.bar.required > 1 || !CanWin(m.shared, op.(pc := m.pc)))
  {
    if Approving(op.pc) {
      LapsedApproveTurn(registry, g, id, op, c);
    } else {
      OthersLeaveItLapsed(registry, g, id, op, c);
    }
  }

  lemma {:induction false} LapsedStep(registry: Registry, s: State, a: Action)
    requires Inv(registry, s) && Lapsed(registry, s)
    ensures Lapsed(registry, Step(registry, s, a))
  {
    if a.Advance? && a.id in s.ops {
      var mover := StepKeepsInv(registry, s, a);
      LapsedTurn(registry, s.shared, a.id, s.ops[a.id], a.chance);
    }
  }

  lemma {:induction false} LapsedNext(registry: Registry, s: State, s': State)
    requires Inv(registry, s) && Lapsed(registry, s) && Next(registry, s, s')
    ensures Lapsed(registry, s')
  {
    var a :| s' == Step(registry, s, a);
    LapsedStep(registry, s, a);
  }

  lemma {:induction false} LapsedAt(registry: Registry, b: seq<State>, i: nat)
    requires Behavior(registry, b) && i + 1 < |b| && Lapsed(registry, b[i])
    ensures Lapsed(registry, b[i + 1])
  {
    InvariantHolds(registry, b, i);
    assert NextAt(registry, b, i);
    LapsedNext(registry, b[i], b[i + 1]);
  }

  lemma {:induction false} LapseLasts(registry: Registry, b: seq<State>, i: nat, j: nat)
    requires Behavior(registry, b) && i <= j < |b| && Lapsed(registry, b[i])
    ensures Lapsed(registry, b[j])
  {
    if i < j {
      LapseLasts(registry, b, i, j - 1);
      LapsedAt(registry, b, j - 1);
    }
  }

  /** A lapsed request is never executed. */
  lemma LapseIsFinal(registry: Registry, b: seq<State>, i: nat, j: nat)
    requires Behavior(registry, b) && i <= j < |b| && Lapsed(registry, b[i])
    ensures b[j].shared.row.status in {Pending, Denied} && b[j].shared.effects == []
  {
    LapseLasts(registry, b, i, j);
    InvariantHolds(registry, b, j);
  }

  /**
   The side effect is run by an operator of the request's tenant, whose own approve audit was
   durable by then, and after a decision taken before expiry.
   */
  lemma EffectFollowsAuditAndDecision(registry: Registry, b: seq<State>, i: nat, f: Effect)
    requires Behavior(registry, b) && i < |b| && f in b[i].shared.effects
    ensures f.run in b[i].ops && b[i].ops[f.run].actor.tenant == b[i].shared.row.intent.tenant
    ensures ApprovedBy(b[i].shared.audit, f.audited, b[i].ops[f.run].actor.sub)
    ensures b[i].shared.row.decidedAt.Some? &&
            b[i].shared.row.decidedAt.value < b[i].shared.row.intent.expiresAt
  {
    InvariantHolds(registry, b, i);
    assert RunOk(registry, b[i].shared, f.run, b[i].ops[f.run]);
  }

  // ---- who acts, and what is recorded of it --------------------------------

  /** In every run, whoever clears the bar, claims, denies or reads is of the request's own tenant. */
  lemma OnlyOwnTenantActs(registry: Registry, b: seq<State>, i: nat)
    requires Behavior(registry, b) && i < |b|
    ensures var s, tenant := b[i], b[i].shared.row.intent.tenant;
            && (forall p | p in s.shared.passes :: p.actor.tenant == tenant)
            && (forall id | id in s.ops && (Admitted(s.ops[id].pc) || s.shared.claimant == Some(id)) ::
                  s.ops[id].actor.tenant == tenant)
  {
    InvariantHolds(registry, b, i);
    forall id | id in b[i].ops && (Admitted(b[i].ops[id].pc) || b[i].shared.claimant == Some(id))
      ensures b[i].ops[id].actor.tenant == b[i].shared.row.intent.tenant
    {
      assert RunOk(registry, b[i].shared, id, b[i].ops[id]);
    }
  }

  /** Run `id` denies: an operator of the tenant, before expiry, with a reason that is kept. */
  predicate Denies(s: State, s': State, id: nat) {
    var g := s.shared;
    && id in s.ops && s.ops[id].pc.Denying? && s.ops[id].actor.tenant == g.row.intent.tenant
    && !IsBlank(s.ops[id].pc.reason) && g.row.status == Pending
    && s'.shared.row.decidedAt.Some? && s'.shared.row.decidedAt.value < g.row.intent.expiresAt
    && s'.shared.row == g.row.(status := Denied, approver := Some(s.ops[id].actor.sub),
                               decidedAt := s'.shared.row.decidedAt, deniedReason := Some(s.ops[id].pc.reason))
  }

  lemma {:induction false} OnlyDenyingDenies(registry: Registry, s: State, a: Action)
    requires s.shared.row.intent.action in registry && s.shared.row.status != Denied
    requires Step(registry, s, a).shared.row.status == Denied
    ensures a.Advance? && a.id in s.ops && s.ops[a.id].pc.Denying?
  {
    if a.Advance? && a.id in s.ops && !s.ops[a.id].pc.Denying? {
      TurnDeniesNothing(registry, s.shared, a.id, s.ops[a.id], a.chance);
    }
  }

  lemma {:induction false} TurnDeniesNothing(registry: Registry, g: Shared, id: nat, op: Op, c: Chance)
    requires g.row.intent.action in registry && g.row.status != Denied && !op.pc.Denying?
    ensures Turn(registry, g, id, op, c).shared.row.status != Denied
  {
  }

  lemma {:induction false} DenyingStep(registry: Registry, s: State, id: nat, c: Chance)
    requires Inv(registry, s) && id in s.ops && s.ops[id].pc.Denying? && s.shared.row.status != Denied
    requires Step(registry, s, Advance(id, c)).shared.row.status == Denied
    ensures Denies(s, Step(registry, s, Advance(id, c)), id)
  {
    assert RunOk(registry, s.shared, id, s.ops[id]);
  }

  /** Whenever a request becomes denied, in any run, one operator of its tenant denied it with a reason. */
  lemma DenialIsAttributed(registry: Registry, b: seq<State>, j: nat) returns (id: nat)
    requires Behavior(registry, b) && j + 1 < |b|
    requires b[j].shared.row.status != Denied && b[j + 1].shared.row.status == Denied
    ensures Denies(b[j], b[j + 1], id)
  {
    InvariantHolds(registry, b, j);
    assert NextAt(registry, b, j);
    var a :| b[j + 1] == Step(registry, b[j], a);
    OnlyDenyingDenies(registry, b[j], a);
    id := a.id;
    DenyingStep(registry, b[j], id, a.chance);
  }

  /** Who approved had cleared the bar, who denied is the row's denier, and outcomes are the row's. */
  ghost predicate AuditIsTrue(g: Shared, a: AuditRow) {
    match a
    case ApproveAudit(who) => exists p :: p in g.passes && p.actor.sub == who
    case DenyAudit(who) => g.row.status == Denied && g.row.approver == Some(who)
    case ExecuteAudit(_, names) => g.row.status == Executed && names == if g.row.intent.bar.required > 1 then g.ledger else []
    case FailureAudit(_) => g.row.status == Failed
  }

  /** What a run that came to its end must have left in the audit log. */
  ghost predicate AuditIsComplete(g: Shared, op: Op) {
    match op.pc
    case Finished(Succeeded) => exists names :: ExecuteAudit(op.actor.sub, names) in g.audit
    case Finished(RunFailed) => FailureAudit(op.actor.sub) in g.audit
    case Finished(DenialRecorded) => DenyAudit(op.actor.sub) in g.audit
    case _ => true
  }

  /** In every run the audit log says nothing false, and a run that reports its end has its row in it. */
  lemma AuditIsTrueAndComplete(registry: Registry, b: seq<State>, i: nat)
    requires Behavior(registry, b) && i < |b|
    ensures forall a | a in b[i].shared.audit :: AuditIsTrue(b[i].shared, a)
    ensures forall id | id in b[i].ops :: AuditIsComplete(b[i].shared, b[i].ops[id])
  {
    var g := b[i].shared;
    InvariantHolds(registry, b, i);
    forall a | a in g.audit ensures AuditIsTrue(g, a) {
      var k :| 0 <= k < |g.audit| && g.audit[k] == a;
      assert AuditRowOk(g.row, g.ledger, g.passes, g.audit[k]);
      if a.ApproveAudit? {
        PassIsThere(g.passes, a.who);
      }
    }
    forall id | id in b[i].ops ensures AuditIsComplete(g, b[i].ops[id]) {
      assert RunOk(registry, g, id, b[i].ops[id]);
    }
  }

  lemma PassIsThere(passes: seq<Pass>, sub: string)
    requires HasPass(passes, sub)
    ensures exists p :: p in passes && p.actor.sub == sub
  {
    var k :| 0 <= k < |passes| && passes[k].actor.sub == sub;
    assert passes[k] in passes;
  }

  // ---- quorum and attribution ----------------------------------------------

  /** The operators whose approvals count toward the bar so far. */
  function Approvers(g: Shared): seq<string> {
    if g.row.intent.bar.required > 1 then g.ledger
    else if Decided(g.row.status) && g.row.approver.Some? then [g.row.approver.value]
    else []
  }

  ghost predicate ClearedBar(registry: Registry, g: Shared, sub: string) {
    g.row.intent.action in registry &&
    exists p :: p in g.passes && p.actor.sub == sub && PassOk(registry, g.row.intent, p)
  }

  lemma PassClears(registry: Registry, g: Shared, sub: string)
    requires SharedOk(registry, g) && HasPass(g.passes, sub)
    ensures ClearedBar(registry, g, sub)
  {
    var k :| 0 <= k < |g.passes| && g.passes[k].actor.sub == sub;
    assert g.passes[k] in g.passes && PassOk(registry, g.row.intent, g.passes[k]);
  }

  lemma {:induction false} DeciderJoinsWithPass(registry: Registry, g: Shared, id: nat, op: Op, c: Chance, sub: string)
    requires SharedOk(registry, g) && RunOk(registry, g, id, op) && op.pc.Deciding? && op.pc.view == Pending
    requires sub !in Approvers(g) && sub in Approvers(Decide(g, op, op.pc.view, op.pc.at, c).shared)
    ensures HasPass(g.passes, sub) && g.effects == []
  {
    if g.row.intent.bar.required > 1 {
      QuorumRecords(g.row, g.ledger, g.passes, op.actor.sub, Begun(g, c, op.pc.at), g.clock);
    }
  }

  lemma {:induction false} ApproveTurnKeepsApprovers(registry: Registry, g: Shared, id: nat, op: Op, c: Chance)
    requires g.row.intent.action in registry && !(op.pc.Deciding? && op.pc.view != Approved)
    ensures Approvers(ApproveTurn(registry, g, id, op, c).shared) == Approvers(g)
  {
  }

  lemma {:induction false} OtherTurnKeepsApprovers(g: Shared, op: Op, c: Chance)
    ensures Approvers(OtherTurn(g, op, c).shared) == Approvers(g)
  {
  }

  lemma {:induction false} ExecuteTurnKeepsApprovers(registry: Registry, g: Shared, id: nat, op: Op, c: Chance)
    requires g.row.intent.action in registry
    ensures Approvers(ExecuteTurn(registry, g, id, op, c).shared) == Approvers(g)
  {
  }

  /** Only a deciding approver joins the approvers, and it has its pass by then. */
  lemma {:induction false} JoinsWithPass(registry: Registry, g: Shared, id: nat, op: Op, c: Chance, sub: string)
    requires SharedOk(registry, g) && RunOk(registry, g, id, op)
    requires sub !in Approvers(g) && sub in Approvers(Turn(registry, g, id, op, c).shared)
    ensures HasPass(g.passes, sub) && g.effects == []
  {
    if op.pc.Deciding? && op.pc.view == Pending {
      DeciderJoinsWithPass(registry, g, id, op, c, sub);
    } else if Approving(op.pc) {
      ApproveTurnKeepsApprovers(registry, g, id, op, c);
    } else if Serving(op.pc) {
      OtherTurnKeepsApprovers(g, op, c);
    } else {
      ExecuteTurnKeepsApprovers(registry, g, id, op, c);
    }
  }

  lemma {:induction false} JoinsCleared(registry: Registry, s: State, s': State, sub: string)
    requires Inv(registry, s) && Next(registry, s, s')
    requires sub !in Approvers(s.shared) && sub in Approvers(s'.shared)
    ensures ClearedBar(registry, s.shared, sub) && s.shared.effects == []
  {
    var a :| s' == Step(registry, s, a);
    JoinsWithPass(registry, s.shared, a.id, s.ops[a.id], a.chance, sub);
    PassClears(registry, s.shared, sub);
  }

  /** Step `j` of the run records `sub`, who had cleared the bar before it, and the side effect had not run. */
  ghost predicate RecordedAfterClearing(registry: Registry, b: seq<State>, j: nat, sub: string) {
    && j + 1 < |b|
    && sub !in Approvers(b[j].shared) && sub in Approvers(b[j + 1].shared)
    && ClearedBar(registry, b[j].shared, sub) && b[j].shared.effects == []
  }

  /** Whenever an approver is recorded, in any run, it had met the bar and the preview before. */
  lemma RecordingFollowsClearance(registry: Registry, b: seq<State>, j: nat, sub: string)
    requires Behavior(registry, b) && j + 1 < |b|
    requires sub !in Approvers(b[j].shared) && sub in Approvers(b[j + 1].shared)
    ensures RecordedAfterClearing(registry, b, j, sub)
  {
    InvariantHolds(registry, b, j);
    assert NextAt(registry, b, j);
    JoinsCleared(registry, b[j], b[j + 1], sub);
  }

  lemma {:induction false} ApproverWasRecorded(registry: Registry, b: seq<State>, i: nat, sub: string) returns (j: nat)
    requires Behavior(registry, b) && i < |b| && sub in Approvers(b[i].shared)
    ensures j < i && RecordedAfterClearing(registry, b, j, sub)
  {
    if i > 0 {
      if sub in Approvers(b[i - 1].shared) {
        j := ApproverWasRecorded(registry, b, i - 1, sub);
      } else {
        j := i - 1;
        RecordingFollowsClearance(registry, b, j, sub);
      }
    }
  }

  /**
   When the side effect runs, exactly the required number of distinct operators have approved.
   Each of them was recorded at an earlier step, before the effect, and had by then met the
   frozen role, factor and cooldown bar, and the effect preview of a governed action.
   */
  lemma EffectHasQuorum(registry: Registry, b: seq<State>, i: nat)
    requires Behavior(registry, b) && i < |b| && b[i].shared.effects != []
    ensures var g := b[i].shared; Distinct(Approvers(g)) && |Approvers(g)| == g.row.intent.bar.required
    ensures forall sub | sub in Approvers(b[i].shared) ::
              exists j: nat :: j < i && RecordedAfterClearing(registry, b, j, sub)
  {
    InvariantHolds(registry, b, i);
    forall sub | sub in Approvers(b[i].shared)
      ensures exists j: nat :: j < i && RecordedAfterClearing(registry, b, j, sub)
    {
      var j := ApproverWasRecorded(registry, b, i, sub);
    }
  }

  /** A successful M-of-N run leaves an execute audit that names exactly the ledger of approvers. */
  lemma SuccessNamesEveryApprover(registry: Registry, b: seq<State>, i: nat, id: nat)
    requires Behavior(registry, b) && i < |b|
    requires id in b[i].ops && b[i].ops[id].pc == Finished(Succeeded)
    requires b[i].shared.row.intent.bar.required > 1
    ensures ExecuteAudit(b[i].ops[id].actor.sub, b[i].shared.ledger) in b[i].shared.audit
    ensures forall a | a in b[i].shared.audit && a.ExecuteAudit? :: a.names == b[i].shared.ledger
  {
    InvariantHolds(registry, b, i);
    assert RunOk(registry, b[i].shared, id, b[i].ops[id]);
  }

  // ---- claimed runs settle the row -----------------------------------------

  /** A row is left executing only by a run that still holds it, or that a store call failed. */
  lemma ExecutingIsHeld(registry: Registry, b: seq<State>, i: nat)
    requires Behavior(registry, b) && i < |b| && b[i].shared.row.status == Executing
    ensures var g := b[i].shared;
            && g.claimant.Some? && g.claimant.value in b[i].ops
            && var pc := b[i].ops[g.claimant.value].pc; Holding(pc) || pc == Finished(Faulted)
  {
    InvariantHolds(registry, b, i);
    var id := b[i].shared.claimant.value;
    assert RunOk(registry, b[i].shared, id, b[i].ops[id]);
  }

  /** Steps a holding run still needs before the row is settled. */
  function Remaining(pc: Pc): nat {
    match pc
    case Resolving => 5
    case Rechecking => 4
    case Running(_) => 3
    case StoringSecret(_) => 2
    case MarkingExecuted => 1
    case MarkingFailed => 1
    case _ => 0
  }

  /** A holding run whose store calls succeed settles the row within five of its own steps ... */
  lemma {:induction false} HolderSettles(registry: Registry, s: State, id: nat, c: Chance)
    requires Inv(registry, s) && id in s.ops && Holding(s.ops[id].pc) && c.fault == Fine
    ensures var s' := Step(registry, s, Advance(id, c));
            || s'.shared.row.status in {Executed, Failed}
            || (Holding(s'.ops[id].pc) && Remaining(s'.ops[id].pc) < Remaining(s.ops[id].pc))
  {
    assert RunOk(registry, s.shared, id, s.ops[id]);
  }

  /** ... and nobody else can make it wait longer or take the row from it. */
  lemma {:induction false} HolderUndisturbed(registry: Registry, s: State, id: nat, a: Action)
    requires Inv(registry, s) && id in s.ops && Holding(s.ops[id].pc)
    requires a.Advance? ==> a.id != id
    ensures var s' := Step(registry, s, a);
            id in s'.ops && s'.ops[id] == s.ops[id] && s'.shared.row == s.shared.row
  {
    assert RunOk(registry, s.shared, id, s.ops[id]);
    if a.Advance? && a.id in s.ops {
      EveryTurnKept(registry, s.shared, a.id, s.ops[a.id], a.chance);
    }
  }

  // ---- lost updates --------------------------------------------------------

  /**
   A version-binding executor writes over exactly the target its proposal captured. Any guarded
   executor ran after a recheck that found the captured witness, and what a versioned one
   replaced matches the witness exactly when it is the captured target itself.
   */
  lemma NoLostUpdate(registry: Registry, b: seq<State>, i: nat, f: Effect)
    requires Behavior(registry, b) && i < |b| && f in b[i].shared.effects
    ensures var g := b[i].shared; var intent := g.row.intent;
            && intent.action in registry
            && var e := registry[intent.action];
            && (e.binds && e.versioned ==> f.before.Some? && f.before == g.captured)
            && (e.binds ==> intent.token.Some? && Capture(e, f.before) == intent.token == Capture(e, g.captured))
            && (intent.token.Some? ==> Capture(e, f.rechecked) == intent.token)
            && (intent.token.Some? && e.versioned ==>
                  (Capture(e, f.before) == intent.token <==> f.before.Some? && f.before == g.captured))
  {
    InvariantHolds(registry, b, i);
  }

  // ---- the one-time secret -------------------------------------------------

  /**
   Under any number of concurrent readers the secret is handed out at most once, to the maker,
   after execution; and an executed change whose action produced a secret has it stored.
   */
  lemma SecretDeliveredOnceToMaker(registry: Registry, b: seq<State>, i: nat)
    requires Behavior(registry, b) && i < |b|
    ensures var g := b[i].shared;
            && |g.deliveries| <= 1
            && (g.deliveries != [] ==>
                  && g.row.status == Executed && g.effects != []
                  && g.effects[0].secret == Some(g.deliveries[0].secret)
                  && g.deliveries[0].to == g.row.intent.requestedBy)
            && (g.row.status == Executed && g.effects != [] && g.effects[0].secret.Some? ==>
                  g.secret.Some? && g.secret.value.envelope.plaintext == g.effects[0].secret.value)
  {
    InvariantHolds(registry, b, i);
  }

  /** A decryption that fails leaves the stored secret as it was. */
  lemma {:induction false} FailedDecryptConsumesNothing(registry: Registry, s: State, id: nat, c: Chance)
    requires Inv(registry, s) && id in s.ops && s.ops[id].pc.Decrypting?
    ensures var s' := Step(registry, s, Advance(id, c));
            s'.shared == s.shared && (s.ops[id].pc.envelope.keyId !in s.shared.keyring ==> s'.ops[id].pc == Finished(Faulted))
  {
  }

  /** Run `id`, the maker's, has decrypted the stored secret and takes it, delivered or lost on the way. */
  predicate Consumes(s: State, s': State, id: nat)
    requires s.shared.secret.Some?
  {
    var g, plaintext := s.shared, s.shared.secret.value.envelope.plaintext;
    && id in s.ops && id in s'.ops && s.ops[id].pc == Burning(plaintext)
    && s.ops[id].actor.sub == g.row.intent.requestedBy && s.ops[id].actor.tenant == g.row.intent.tenant
    && g.row.status == Executed
    && (|| (s'.ops[id].pc == Finished(Delivered(plaintext))
            && s'.shared.deliveries == g.deliveries + [Delivery(g.row.intent.requestedBy, plaintext)])
        || (s'.ops[id].pc == Finished(Faulted) && s'.shared.deliveries == g.deliveries))
  }

  lemma {:induction false} ApproveTurnKeepsSecret(registry: Registry, g: Shared, id: nat, op: Op, c: Chance)
    requires g.row.intent.action in registry
    ensures ApproveTurn(registry, g, id, op, c).shared.secret == g.secret
  {
  }

  lemma {:induction false} ExecuteTurnKeepsSecret(registry: Registry, g: Shared, id: nat, op: Op, c: Chance)
    requires g.row.intent.action in registry && g.secret.Some?
    ensures ExecuteTurn(registry, g, id, op, c).shared.secret == g.secret
  {
  }

  lemma {:induction false} OtherTurnKeepsSecret(g: Shared, op: Op, c: Chance)
    requires !op.pc.Burning?
    ensures OtherTurn(g, op, c).shared.secret == g.secret
  {
  }

  /** A stored secret is touched by nothing but the last step of a reader. */
  lemma {:induction false} OnlyBurningConsumes(registry: Registry, s: State, a: Action)
    requires s.shared.row.intent.action in registry && s.shared.secret.Some?
    requires Step(registry, s, a).shared.secret != s.shared.secret
    ensures a.Advance? && a.id in s.ops && s.ops[a.id].pc.Burning?
  {
    if a.Advance? && a.id in s.ops && !s.ops[a.id].pc.Burning? {
      var g, op := s.shared, s.ops[a.id];
      ApproveTurnKeepsSecret(registry, g, a.id, op, a.chance);
      ExecuteTurnKeepsSecret(registry, g, a.id, op, a.chance);
      OtherTurnKeepsSecret(g, op, a.chance);
    }
  }

  /** Only the maker's run, holding the stored secret, consumes it; and it hands it over unless the reply is lost. */
  lemma {:induction false} ConsumingStep(registry: Registry, s: State, a: Action)
    requires Inv(registry, s) && s.shared.secret.Some? && !s.shared.secret.value.retrieved
    requires var s' := Step(registry, s, a); s'.shared.secret.Some? && s'.shared.secret.value.retrieved
    ensures a.Advance? && a.id in s.ops && Consumes(s, Step(registry, s, a), a.id)
    ensures a.chance.fault == Fine ==> Step(registry, s, a).shared.deliveries != s.shared.deliveries
  {
    OnlyBurningConsumes(registry, s, a);
    assert RunOk(registry, s.shared, a.id, s.ops[a.id]);
  }

  /** Whenever a stored secret is marked retrieved, in any run, its maker's reader took it. */
  lemma SecretConsumedOnlyByMaker(registry: Registry, b: seq<State>, j: nat) returns (id: nat)
    requires Behavior(registry, b) && j + 1 < |b|
    requires b[j].shared.secret.Some? && !b[j].shared.secret.value.retrieved
    requires b[j + 1].shared.secret.Some? && b[j + 1].shared.secret.value.retrieved
    ensures Consumes(b[j], b[j + 1], id)
  {
    InvariantHolds(registry, b, j);
    assert NextAt(registry, b, j);
    var a :| b[j + 1] == Step(registry, b[j], a);
    ConsumingStep(registry, b[j], a);
    id := a.id;
  }

  /** Run `id` holds the claim and stores the secret its effect produced, sealed under the active key and unread. */
  predicate Stores(s: State, s': State, id: nat) {
    && id in s.ops && s.ops[id].pc.StoringSecret? && s.shared.claimant == Some(id)
    && s'.shared.secret == Some(StoredSecret(Sealed(s.shared.activeKey, s.ops[id].pc.secret), false))
    && |s.shared.effects| == 1 && s.shared.effects[0].secret == Some(s.ops[id].pc.secret)
  }

  lemma {:induction false} OnlyStoringStores(registry: Registry, s: State, a: Action)
    requires s.shared.row.intent.action in registry && s.shared.secret.None?
    requires Step(registry, s, a).shared.secret.Some?
    ensures a.Advance? && a.id in s.ops && s.ops[a.id].pc.StoringSecret?
  {
    if a.Advance? && a.id in s.ops && !s.ops[a.id].pc.StoringSecret? {
      TurnStoresNothing(registry, s.shared, a.id, s.ops[a.id], a.chance);
    }
  }

  lemma {:induction false} TurnStoresNothing(registry: Registry, g: Shared, id: nat, op: Op, c: Chance)
    requires g.row.intent.action in registry && g.secret.None? && !op.pc.StoringSecret?
    ensures Turn(registry, g, id, op, c).shared.secret.None?
  {
  }

  lemma {:induction false} StoringStep(registry: Registry, s: State, id: nat, c: Chance)
    requires Inv(registry, s) && id in s.ops && s.ops[id].pc.StoringSecret?
    requires Step(registry, s, Advance(id, c)).shared.secret.Some?
    ensures Stores(s, Step(registry, s, Advance(id, c)), id)
  {
    assert RunOk(registry, s.shared, id, s.ops[id]);
  }

  /** Whenever a secret comes to be stored, in any run, the run that produced it stored it under the active key. */
  lemma SecretIsSealedOnce(registry: Registry, b: seq<State>, j: nat) returns (id: nat)
    requires Behavior(registry, b) && j + 1 < |b|
    requires b[j].shared.secret.None? && b[j + 1].shared.secret.Some?
    ensures Stores(b[j], b[j + 1], id)
  {
    InvariantHolds(registry, b, j);
    assert NextAt(registry, b, j);
    var a :| b[j + 1] == Step(registry, b[j], a);
    OnlyStoringStores(registry, b[j], a);
    id := a.id;
    StoringStep(registry, b[j], id, a.chance);
  }
}
