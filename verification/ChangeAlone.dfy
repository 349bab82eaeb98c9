/** What one operator achieves when nobody interferes: exactly when an approval counts, a denial lands and a change executes. */
module ChangeAlone {
  import opened Basics
  import opened ApprovalBar
  import opened ChangeStore
  import opened ChangePropose
  import opened ChangeProtocol
  import opened ChangeSafety
  import opened ChangeTheorems
  import opened ChangeRuns

  /** The steps of run `id`, with what each leaves to chance. */
  function Steps(id: nat, cs: seq<Chance>): seq<Action> {
    seq(|cs|, i requires 0 <= i < |cs| => Advance(id, cs[i]))
  }

  /** What those steps come to for the shared state and the run. */
  function Solo(registry: Registry, m: Move, id: nat, op: Op, cs: seq<Chance>): Move
    decreases |cs|
  {
    if cs == [] || m.shared.row.intent.action !in registry then m
    else Solo(registry, Turn(registry, m.shared, id, op.(pc := m.pc), cs[0]), id, op, cs[1..])
  }

  lemma {:induction false} SoloIsAfter(registry: Registry, s: State, id: nat, cs: seq<Chance>)
    requires id in s.ops
    ensures var t, m := After(registry, s, Steps(id, cs)), Solo(registry, Move(s.shared, s.ops[id].pc), id, s.ops[id], cs);
            t.shared == m.shared && id in t.ops && t.ops[id] == s.ops[id].(pc := m.pc)
    decreases |cs|
  {
    if cs != [] {
      assert Steps(id, cs)[1..] == Steps(id, cs[1..]);
      if s.shared.row.intent.action in registry {
        var t := Step(registry, s, Advance(id, cs[0]));
        SoloIsAfter(registry, t, id, cs[1..]);
        SoloIgnoresPc(registry, Move(t.shared, t.ops[id].pc), id, s.ops[id], t.ops[id].pc, cs[1..]);
      } else {
        SoloIsAfter(registry, s, id, cs[1..]);
      }
    }
  }

  lemma {:induction false} SoloIgnoresPc(registry: Registry, m: Move, id: nat, op: Op, pc: Pc, cs: seq<Chance>)
    ensures Solo(registry, m, id, op.(pc := pc), cs) == Solo(registry, m, id, op, cs)
    decreases |cs|
  {
    if cs != [] && m.shared.row.intent.action in registry {
      assert op.(pc := pc).(pc := m.pc) == op.(pc := m.pc);
      SoloIgnoresPc(registry, Turn(registry, m.shared, id, op.(pc := m.pc), cs[0]), id, op, pc, cs[1..]);
    }
  }

  lemma SoloOne(registry: Registry, m: Move, id: nat, op: Op, cs: seq<Chance>)
    requires cs != [] && m.shared.row.intent.action in registry
    ensures Solo(registry, m, id, op, cs)
         == Solo(registry, Turn(registry, m.shared, id, op.(pc := m.pc), cs[0]), id, op, cs[1..])
  {
  }

  predicate AllFine(cs: seq<Chance>) {
    forall i | 0 <= i < |cs| :: cs[i].fault == Fine
  }

  // ---- one approval --------------------------------------------------------

  /** Somebody of the tenant who meets the frozen bar now; a pending request must still be open. */
  ghost predicate Eligible(g: Shared, op: Op) {
    var intent := g.row.intent;
    && op.actor.tenant == intent.tenant && (g.row.status == Pending ==> g.clock < intent.expiresAt)
    && MeetsBar(intent.bar, intent.createdAt, op.actor, op.session, g.clock)
  }

  predicate PreviewClears(registry: Registry, g: Shared, op: Op, good: bool)
    requires g.row.intent.action in registry
  {
    registry[g.row.intent.action].governed ==> op.acknowledged && good
  }

  lemma {:induction false} FinishedStays(registry: Registry, m: Move, id: nat, op: Op, cs: seq<Chance>)
    requires m.pc.Finished?
    ensures Solo(registry, m, id, op, cs) == m
    decreases |cs|
  {
    if cs != [] && m.shared.row.intent.action in registry {
      assert Turn(registry, m.shared, id, op.(pc := m.pc), cs[0]) == m;
      FinishedStays(registry, m, id, op, cs[1..]);
    }
  }

  lemma {:induction false} SoloChecks(registry: Registry, g: Shared, id: nat, op: Op, a: Chance, b: Chance, rest: seq<Chance>)
    requires g.row.intent.action in registry && a.fault == Fine && (g.row.status == Pending || g.row.status == Approved)
    ensures Solo(registry, Move(g, Loading), id, op, [a, b] + rest)
         == if Eligible(g, op) then Solo(registry, Move(g, Previewing(g.row.status, g.clock)), id, op, rest)
            else Move(g, Finished(Refused))
  {
    var cs := [a, b] + rest;
    assert cs[1..] == [b] + rest && cs[1..][1..] == rest;
    SoloOne(registry, Move(g, Loading), id, op, cs);
    if op.actor.tenant != g.row.intent.tenant {
      FinishedStays(registry, Move(g, Finished(Refused)), id, op, [b] + rest);
    } else {
      SoloOne(registry, Move(g, Checking(g.row)), id, op, [b] + rest);
      EnforceOkExactly(g.row.intent.bar, g.row.intent.createdAt, op.actor, op.session, g.clock);
      FinishedStays(registry, Move(g, Finished(Refused)), id, op, rest);
    }
  }

  lemma {:induction false} SoloPreviews(registry: Registry, g: Shared, id: nat, op: Op, view: Status, a: Chance, rest: seq<Chance>)
    requires g.row.intent.action in registry
    ensures Solo(registry, Move(g, Previewing(view, g.clock)), id, op, [a] + rest)
         == if PreviewClears(registry, g, op, a.good)
            then Solo(registry, Move(g.(passes := g.passes + [Pass(op.actor, op.session, g.clock, op.acknowledged, !a.good)]),
                                     Deciding(view, g.clock)), id, op, rest)
            else Move(g, Finished(Refused))
  {
    assert ([a] + rest)[1..] == rest;
    SoloOne(registry, Move(g, Previewing(view, g.clock)), id, op, [a] + rest);
    FinishedStays(registry, Move(g, Finished(Refused)), id, op, rest);
  }

  /** `g'` is `g` with the approval of `sub` counted, once, and audited, and the request approved if that makes the number. */
  predicate Counted(g: Shared, g': Shared, sub: string) {
    && g'.audit == g.audit + [ApproveAudit(sub)]
    && Approvers(g') == (if sub in Approvers(g) then Approvers(g) else Approvers(g) + [sub])
    && g'.row == (if |Approvers(g')| < g.row.intent.bar.required then g.row
                  else g.row.(status := Approved, approver := Some(sub), decidedAt := Some(g.clock)))
  }

  lemma {:induction false} DecidesAndAudits(registry: Registry, g: Shared, id: nat, op: Op, c: Chance)
    requires g.row.intent.action in registry && QuorumOk(g.row, g.ledger, g.passes) && g.row.intent.bar.required >= 1
    requires g.row.status == Pending && g.clock < g.row.intent.expiresAt && c.fault == Fine
    ensures var m := Decide(g, op, Pending, g.clock, c);
            && (m.pc.AuditingPartial? || m.pc.AuditingApproval?) && m.shared.row.intent == g.row.intent
            && Counted(g, m.shared.(audit := g.audit + [ApproveAudit(op.actor.sub)]), op.actor.sub) && m.shared.audit == g.audit
  {
    assert Begun(g, c, g.clock) == g.clock;
  }

  lemma {:induction false} SoloDecides(registry: Registry, g: Shared, id: nat, op: Op, c: Chance, d: Chance)
    requires g.row.intent.action in registry && QuorumOk(g.row, g.ledger, g.passes) && g.row.intent.bar.required >= 1
    requires g.row.status == Pending && g.clock < g.row.intent.expiresAt && c.fault == Fine && d.fault == Fine
    ensures Counted(g, Solo(registry, Move(g, Deciding(Pending, g.clock)), id, op, [c, d]).shared, op.actor.sub)
  {
    assert [c, d][1..] == [d] && [d][1..] == [];
    SoloOne(registry, Move(g, Deciding(Pending, g.clock)), id, op, [c, d]);
    DecidesAndAudits(registry, g, id, op, c);
    var m := Decide(g, op, Pending, g.clock, c);
    assert Turn(registry, g, id, op.(pc := Deciding(Pending, g.clock)), c) == m;
    SoloOne(registry, m, id, op, [d]);
    assert Turn(registry, m.shared, id, op.(pc := m.pc), d).shared == m.shared.(audit := g.audit + [ApproveAudit(op.actor.sub)]);
  }

  lemma {:induction false} SoloApproval(registry: Registry, g: Shared, id: nat, op: Op, cs: seq<Chance>)
    requires SharedOk(registry, g) && g.row.status == Pending && |cs| == 5 && AllFine(cs)
    ensures var g' := Solo(registry, Move(g, Loading), id, op, cs).shared;
            if Eligible(g, op) && PreviewClears(registry, g, op, cs[2].good) then Counted(g, g', op.actor.sub) else g' == g
  {
    var last := [cs[3], cs[4]];
    assert cs == [cs[0], cs[1]] + ([cs[2]] + last);
    SoloChecks(registry, g, id, op, cs[0], cs[1], [cs[2]] + last);
    if Eligible(g, op) {
      SoloPreviews(registry, g, id, op, Pending, cs[2], last);
      if PreviewClears(registry, g, op, cs[2].good) {
        var passes := g.passes + [Pass(op.actor, op.session, g.clock, op.acknowledged, !cs[2].good)];
        SoloDecides(registry, g.(passes := passes), id, op, cs[3], cs[4]);
      }
    }
  }

  /**
   An operator who approves a pending request undisturbed is counted and audited exactly when it is of the
   tenant, meets the bar now, the request is open, and the preview of a governed action clears.
   The request is approved exactly when that makes the required number of distinct approvers.
   */
  lemma ApprovalCountsExactly(registry: Registry, s: State, id: nat, actor: Principal, session: Option<Session>,
                              acknowledged: bool, cs: seq<Chance>)
    requires Inv(registry, s) && s.shared.row.status == Pending && id !in s.ops && |cs| == 5 && AllFine(cs)
    ensures var op := Op(actor, session, acknowledged, Loading);
            var t := After(registry, s, [StartApprove(id, actor, session, acknowledged)] + Steps(id, cs));
            if Eligible(s.shared, op) && PreviewClears(registry, s.shared, op, cs[2].good)
            then Counted(s.shared, t.shared, actor.sub) else t.shared == s.shared
  {
    var op := Op(actor, session, acknowledged, Loading);
    var start := Start(s, id, op);
    AfterBoth(registry, s, [StartApprove(id, actor, session, acknowledged)], Steps(id, cs));
    AfterOne(registry, s, StartApprove(id, actor, session, acknowledged));
    SoloIsAfter(registry, start, id, cs);
    SoloApproval(registry, s.shared, id, op, cs);
  }

  lemma {:induction false} SoloJoins(registry: Registry, g: Shared, id: nat, op: Op, a: Chance, b: Chance, c: Chance)
    requires g.row.intent.action in registry && g.row.status == Approved && b.fault == Fine && c.fault == Fine
    ensures Solo(registry, Move(g, Deciding(Approved, g.clock)), id, op, [a, b, c]).shared
         == g.(row := g.row.(status := Executing), claimant := Some(id), audit := g.audit + [ApproveAudit(op.actor.sub)])
  {
    var audited := g.(audit := g.audit + [ApproveAudit(op.actor.sub)]);
    assert [a, b, c][1..] == [b, c] && [b, c][1..] == [c] && [c][1..] == [];
    SoloOne(registry, Move(g, Deciding(Approved, g.clock)), id, op, [a, b, c]);
    assert Turn(registry, g, id, op.(pc := Deciding(Approved, g.clock)), a) == Move(g, AuditingApproval);
    SoloOne(registry, Move(g, AuditingApproval), id, op, [b, c]);
    assert Turn(registry, g, id, op.(pc := AuditingApproval), b) == Move(audited, Claiming);
    SoloOne(registry, Move(audited, Claiming), id, op, [c]);
  }

  lemma {:induction false} SoloResumption(registry: Registry, g: Shared, id: nat, op: Op, cs: seq<Chance>)
    requires g.row.intent.action in registry && g.row.status == Approved && |cs| == 6 && AllFine(cs)
    ensures var g' := Solo(registry, Move(g, Loading), id, op, cs).shared;
            if Eligible(g, op) && PreviewClears(registry, g, op, cs[2].good)
            then g'.row == g.row.(status := Executing) && g'.claimant == Some(id)
                 && g'.audit == g.audit + [ApproveAudit(op.actor.sub)]
            else g' == g
  {
    var last := [cs[3], cs[4], cs[5]];
    assert cs == [cs[0], cs[1]] + ([cs[2]] + last);
    SoloChecks(registry, g, id, op, cs[0], cs[1], [cs[2]] + last);
    if Eligible(g, op) {
      SoloPreviews(registry, g, id, op, Approved, cs[2], last);
      if PreviewClears(registry, g, op, cs[2].good) {
        var passes := g.passes + [Pass(op.actor, op.session, g.clock, op.acknowledged, !cs[2].good)];
        SoloJoins(registry, g.(passes := passes), id, op, cs[3], cs[4], cs[5]);
      }
    }
  }

  /**
   An approved change that nobody executed is taken up by an operator, undisturbed, exactly when
   it is of the tenant, meets the bar and the preview clears; the expiry no longer matters.
   */
  lemma ResumptionExactly(registry: Registry, s: State, id: nat, actor: Principal, session: Option<Session>,
                          acknowledged: bool, cs: seq<Chance>)
    requires Inv(registry, s) && s.shared.row.status == Approved && id !in s.ops && |cs| == 6 && AllFine(cs)
    ensures var op := Op(actor, session, acknowledged, Loading);
            var g, g' := s.shared, After(registry, s, [StartApprove(id, actor, session, acknowledged)] + Steps(id, cs)).shared;
            if Eligible(g, op) && PreviewClears(registry, g, op, cs[2].good)
            then g'.row == g.row.(status := Executing) && g'.claimant == Some(id)
                 && g'.audit == g.audit + [ApproveAudit(actor.sub)]
            else g' == g
  {
    var op := Op(actor, session, acknowledged, Loading);
    AfterBoth(registry, s, [StartApprove(id, actor, session, acknowledged)], Steps(id, cs));
    AfterOne(registry, s, StartApprove(id, actor, session, acknowledged));
    SoloIsAfter(registry, Start(s, id, op), id, cs);
    SoloResumption(registry, s.shared, id, op, cs);
  }

  // ---- one denial ----------------------------------------------------------

  lemma {:induction false} SoloDenial(registry: Registry, g: Shared, id: nat, op: Op, reason: string, cs: seq<Chance>)
    requires g.row.intent.action in registry && |cs| == 2 && AllFine(cs)
    ensures Solo(registry, Move(g, DenyLoading(reason)), id, op, cs).shared
         == if !IsBlank(reason) && op.actor.tenant == g.row.intent.tenant
               && g.row.status == Pending && g.clock < g.row.intent.expiresAt
            then g.(row := g.row.(status := Denied, approver := Some(op.actor.sub), decidedAt := Some(g.clock),
                                  deniedReason := Some(reason)))
            else g
  {
    assert cs[1..] == [cs[1]] && cs[1..][1..] == [];
    SoloOne(registry, Move(g, DenyLoading(reason)), id, op, cs);
    if IsBlank(reason) || op.actor.tenant != g.row.intent.tenant {
      FinishedStays(registry, Move(g, Finished(Refused)), id, op, cs[1..]);
    } else {
      assert Turn(registry, g, id, op.(pc := DenyLoading(reason)), cs[0]) == Move(g, Denying(reason, g.clock));
      SoloOne(registry, Move(g, Denying(reason, g.clock)), id, op, cs[1..]);
      assert Begun(g, cs[1], g.clock) == g.clock;
      assert Turn(registry, g, id, op.(pc := Denying(reason, g.clock)), cs[1]) == DecideDenial(g, op, reason, g.clock, cs[1]);
    }
  }

  /** An operator who denies undisturbed succeeds exactly with a reason, in its tenant, while the request is open. */
  lemma DenialLandsExactly(registry: Registry, s: State, id: nat, actor: Principal, reason: string, cs: seq<Chance>)
    requires Inv(registry, s) && id !in s.ops && |cs| == 2 && AllFine(cs)
    ensures var g, t := s.shared, After(registry, s, [StartDeny(id, actor, reason)] + Steps(id, cs));
            t.shared == if !IsBlank(reason) && actor.tenant == g.row.intent.tenant
                           && g.row.status == Pending && g.clock < g.row.intent.expiresAt
                        then g.(row := g.row.(status := Denied, approver := Some(actor.sub), decidedAt := Some(g.clock),
                                              deniedReason := Some(reason)))
                        else g
  {
    var op := Op(actor, None, false, DenyLoading(reason));
    AfterBoth(registry, s, [StartDeny(id, actor, reason)], Steps(id, cs));
    AfterOne(registry, s, StartDeny(id, actor, reason));
    SoloIsAfter(registry, Start(s, id, op), id, cs);
    SoloDenial(registry, s.shared, id, op, reason, cs);
  }

  // ---- one execution -------------------------------------------------------

  predicate Settling(pc: Pc) {
    pc.Listing? || pc.AuditingExecution? || pc.AuditingFailure? || pc.Finished?
  }

  /** Listing and auditing leave row, effects, target and secret alone. */
  predicate SameChange(g: Shared, g': Shared) {
    g'.row == g.row && g'.effects == g.effects && g'.target == g.target && g'.secret == g.secret
  }

  lemma {:induction false} SettlesQuietly(registry: Registry, m: Move, id: nat, op: Op, cs: seq<Chance>)
    requires Settling(m.pc)
    ensures SameChange(m.shared, Solo(registry, m, id, op, cs).shared)
    decreases |cs|
  {
    if cs != [] && m.shared.row.intent.action in registry {
      var n := Turn(registry, m.shared, id, op.(pc := m.pc), cs[0]);
      assert Settling(n.pc) && SameChange(m.shared, n.shared);
      SettlesQuietly(registry, n, id, op, cs[1..]);
    }
  }

  /** `g'` is `g` with the row settled, its outcome taken from one of the run's calls. */
  ghost predicate SettledAs(g: Shared, g': Shared, status: Status, cs: seq<Chance>) {
    && g'.effects == g.effects && g'.target == g.target && g'.secret == g.secret
    && exists i :: 0 <= i < |cs| && g'.row == g.row.(status := status, outcome := Some(cs[i].text))
  }

  lemma {:induction false} SoloMarks(registry: Registry, g: Shared, id: nat, op: Op, executed: bool, cs: seq<Chance>)
    requires g.row.intent.action in registry && g.row.status == Executing && cs != [] && AllFine(cs)
    ensures var m := Solo(registry, Move(g, if executed then MarkingExecuted else MarkingFailed), id, op, cs);
            SettledAs(g, m.shared, if executed then Executed else Failed, cs)
  {
    var pc := if executed then MarkingExecuted else MarkingFailed;
    SoloOne(registry, Move(g, pc), id, op, cs);
    var n := Turn(registry, g, id, op.(pc := pc), cs[0]);
    SettlesQuietly(registry, n, id, op, cs[1..]);
    assert n.shared.row == g.row.(status := if executed then Executed else Failed, outcome := Some(cs[0].text));
  }

  /** The target is as it was proposed, or the proposal carries no witness. */
  predicate Fresh(registry: Registry, g: Shared, readable: bool)
    requires g.row.intent.action in registry
  {
    var token := g.row.intent.token;
    token.None? || (readable && Capture(registry[g.row.intent.action], g.target) == token)
  }

  predicate Writes(registry: Registry, g: Shared, x: Execution)
    requires g.row.intent.action in registry
  {
    x.Write? && (registry[g.row.intent.action].binds ==> g.row.intent.token.Some?)
  }

  lemma {:induction false} SoloClaims(registry: Registry, g: Shared, id: nat, op: Op, a: Chance, b: Chance, c: Chance, rest: seq<Chance>)
    requires g.row.intent.action in registry && g.row.status == Approved && a.fault == Fine
    ensures var held := g.(row := g.row.(status := Executing), claimant := Some(id));
            Solo(registry, Move(g, Claiming), id, op, [a, b, c] + rest)
            == Solo(registry, Move(held, if Fresh(registry, g, c.good) then Running(g.target) else MarkingFailed), id, op, rest)
  {
    var held := g.(row := g.row.(status := Executing), claimant := Some(id));
    Split(a, [b, c] + rest);
    Split(b, [c] + rest);
    Split(c, rest);
    assert [a, b, c] + rest == [a] + ([b, c] + rest) && [b, c] + rest == [b] + ([c] + rest);
    SoloOne(registry, Move(g, Claiming), id, op, [a] + ([b, c] + rest));
    assert Turn(registry, g, id, op.(pc := Claiming), a) == Move(held, Resolving);
    SoloOne(registry, Move(held, Resolving), id, op, [b] + ([c] + rest));
    assert Turn(registry, held, id, op.(pc := Resolving), b) == Move(held, Rechecking);
    SoloOne(registry, Move(held, Rechecking), id, op, [c] + rest);
  }

  lemma Split(c: Chance, rest: seq<Chance>)
    ensures ([c] + rest)[0] == c && ([c] + rest)[1..] == rest
  {
  }

  /** The state after the effect ran. */
  function Written(g: Shared, id: nat, x: Execution): Shared
    requires x.Write?
  {
    g.(target := if x.content.Some? then Some(Target(g.writes + 1, x.content.value)) else None, writes := g.writes + 1,
       effects := [Effect(id, g.target, g.target, |g.audit|, x.secret, x.reported)])
  }

  lemma {:induction false} SoloExecutes(registry: Registry, g: Shared, id: nat, op: Op, c: Chance, rest: seq<Chance>)
    requires g.row.intent.action in registry && g.effects == [] && Fresh(registry, g, true)
    ensures Solo(registry, Move(g, Running(g.target)), id, op, [c] + rest)
         == if !Writes(registry, g, c.execution) then Solo(registry, Move(g, MarkingFailed), id, op, rest)
            else Solo(registry, Move(Written(g, id, c.execution),
                                     if !c.execution.reported then MarkingFailed
                                     else if c.execution.secret.Some? then StoringSecret(c.execution.secret.value)
                                     else MarkingExecuted), id, op, rest)
  {
    var x := c.execution;
    Split(c, rest);
    SoloOne(registry, Move(g, Running(g.target)), id, op, [c] + rest);
    assert Turn(registry, g, id, op.(pc := Running(g.target)), c) == Execute(registry, g, id, g.target, c);
    if Writes(registry, g, x) {
      assert Execute(registry, g, id, g.target, c).shared == Written(g, id, x);
    }
  }

  lemma {:induction false} SoloStores(registry: Registry, g: Shared, id: nat, op: Op, secret: string, c: Chance, rest: seq<Chance>)
    requires g.row.intent.action in registry && g.secret.None? && c.fault == Fine
    ensures Solo(registry, Move(g, StoringSecret(secret)), id, op, [c] + rest)
         == if c.good then Solo(registry, Move(g.(secret := Some(StoredSecret(Sealed(g.activeKey, secret), false))), MarkingExecuted), id, op, rest)
            else Solo(registry, Move(g, MarkingFailed), id, op, rest)
  {
    assert ([c] + rest)[1..] == rest;
    SoloOne(registry, Move(g, StoringSecret(secret)), id, op, [c] + rest);
  }

  /** The effect ran on `g`, was reported and any secret could be sealed. */
  predicate Completes(registry: Registry, g: Shared, cs: seq<Chance>)
    requires g.row.intent.action in registry && |cs| == 6
  {
    var x := cs[3].execution;
    Fresh(registry, g, cs[2].good) && Writes(registry, g, x) && x.reported && (x.secret.Some? ==> cs[4].good)
  }

  /** What an undisturbed execution leaves: the effect if it ran, the secret if it was sealed, and the row settled. */
  ghost predicate Executes(registry: Registry, g: Shared, g': Shared, id: nat, cs: seq<Chance>)
    requires g.row.intent.action in registry && |cs| == 6
  {
    var x, ran := cs[3].execution, Fresh(registry, g, cs[2].good) && Writes(registry, g, cs[3].execution);
    && g'.effects == (if ran then [Effect(id, g.target, g.target, |g.audit|, x.secret, x.reported)] else [])
    && g'.target == (if ran then Written(g, id, x).target else g.target)
    && g'.secret == (if Completes(registry, g, cs) && x.secret.Some?
                     then Some(StoredSecret(Sealed(g.activeKey, x.secret.value), false)) else None)
    && (exists i :: 0 <= i < |cs| &&
          g'.row == g.row.(status := if Completes(registry, g, cs) then Executed else Failed, outcome := Some(cs[i].text)))
  }

  lemma SettledRow(g: Shared, g': Shared, status: Status, held: Row, all: seq<Chance>, cs: seq<Chance>, k: nat)
    requires SettledAs(g, g', status, cs) && g.row == held.(status := Executing)
    requires k <= |all| && cs == all[k..]
    ensures exists i :: 0 <= i < |all| && g'.row == held.(status := status, outcome := Some(all[i].text))
  {
    var i :| 0 <= i < |cs| && g'.row == g.row.(status := status, outcome := Some(cs[i].text));
    assert all[k + i] == cs[i];
  }

  lemma {:induction false} SoloKeeps(registry: Registry, g: Shared, held: Shared, id: nat, op: Op, cs: seq<Chance>)
    requires g.row.intent.action in registry && g.effects == [] && g.secret.None? && |cs| == 6 && AllFine(cs)
    requires held == g.(row := g.row.(status := Executing), claimant := Some(id)) && Fresh(registry, g, cs[2].good)
    requires Writes(registry, g, cs[3].execution) && cs[3].execution.reported && cs[3].execution.secret.Some?
    ensures var done, secret := Written(held, id, cs[3].execution), cs[3].execution.secret.value;
            Executes(registry, g, Solo(registry, Move(done, StoringSecret(secret)), id, op, cs[4..]).shared, id, cs)
  {
    var done, secret := Written(held, id, cs[3].execution), cs[3].execution.secret.value;
    var kept := if cs[4].good then done.(secret := Some(StoredSecret(Sealed(g.activeKey, secret), false))) else done;
    assert cs[4..] == [cs[4]] + cs[5..];
    SoloStores(registry, done, id, op, secret, cs[4], cs[5..]);
    SoloMarks(registry, kept, id, op, cs[4].good, cs[5..]);
    SettledRow(kept, Solo(registry, Move(done, StoringSecret(secret)), id, op, cs[4..]).shared,
               if cs[4].good then Executed else Failed, g.row, cs, cs[5..], 5);
  }

  lemma {:induction false} SoloRuns(registry: Registry, g: Shared, held: Shared, id: nat, op: Op, cs: seq<Chance>)
    requires g.row.intent.action in registry && g.effects == [] && g.secret.None? && |cs| == 6 && AllFine(cs)
    requires held == g.(row := g.row.(status := Executing), claimant := Some(id)) && Fresh(registry, g, cs[2].good)
    ensures Executes(registry, g, Solo(registry, Move(held, Running(g.target)), id, op, cs[3..]).shared, id, cs)
  {
    var x := cs[3].execution;
    var g' := Solo(registry, Move(held, Running(g.target)), id, op, cs[3..]).shared;
    assert cs[3..] == [cs[3]] + cs[4..];
    SoloExecutes(registry, held, id, op, cs[3], cs[4..]);
    if Writes(registry, g, x) && x.reported && x.secret.Some? {
      SoloKeeps(registry, g, held, id, op, cs);
    } else {
      var done := if Writes(registry, g, x) then Written(held, id, x) else held;
      var executed := Writes(registry, g, x) && x.reported;
      SoloMarks(registry, done, id, op, executed, cs[4..]);
      SettledRow(done, g', if executed then Executed else Failed, g.row, cs, cs[4..], 4);
    }
  }

  /**
   An operator who claims an approved change undisturbed executes it exactly when the target is
   as proposed, the executor writes and reports success, and any secret can be sealed. Then
   there is one effect, over the target as it was, and otherwise the change has failed.
   */
  lemma {:induction false} ExecutesExactly(registry: Registry, s: State, id: nat, cs: seq<Chance>)
    requires Inv(registry, s) && id in s.ops && s.ops[id].pc.Claiming? && s.shared.row.status == Approved
    requires |cs| == 6 && AllFine(cs)
    ensures Executes(registry, s.shared, After(registry, s, Steps(id, cs)).shared, id, cs)
  {
    var g, op := s.shared, s.ops[id];
    var held := g.(row := g.row.(status := Executing), claimant := Some(id));
    SoloIsAfter(registry, s, id, cs);
    assert cs == [cs[0], cs[1], cs[2]] + cs[3..];
    SoloClaims(registry, g, id, op, cs[0], cs[1], cs[2], cs[3..]);
    if Fresh(registry, g, cs[2].good) {
      SoloRuns(registry, g, held, id, op, cs);
    } else {
      SoloMarks(registry, held, id, op, false, cs[3..]);
      SettledRow(held, After(registry, s, Steps(id, cs)).shared, Failed, g.row, cs, cs[3..], 3);
    }
  }

  // ---- one reading of the secret -------------------------------------------

  /** The maker reads an executed change whose secret is stored, unread, and sealed under a key at hand. */
  predicate MayTake(g: Shared, actor: Principal) {
    && actor.tenant == g.row.intent.tenant && actor.sub == g.row.intent.requestedBy && g.row.status == Executed
    && g.secret.Some? && !g.secret.value.retrieved && g.secret.value.envelope.keyId in g.keyring
  }

  lemma {:induction false} SoloOpens(registry: Registry, g: Shared, id: nat, op: Op, a: Chance, b: Chance, rest: seq<Chance>)
    requires g.row.intent.action in registry && a.fault == Fine && b.fault == Fine
    ensures Solo(registry, Move(g, ReadLoading), id, op, [a] + ([b] + rest))
         == if op.actor.tenant == g.row.intent.tenant && op.actor.sub == g.row.intent.requestedBy && g.row.status == Executed
               && a.good && g.secret.Some?
            then Solo(registry, Move(g, Decrypting(g.secret.value.envelope)), id, op, rest)
            else Move(g, Finished(Refused))
  {
    Split(a, [b] + rest);
    Split(b, rest);
    SoloOne(registry, Move(g, ReadLoading), id, op, [a] + ([b] + rest));
    FinishedStays(registry, Move(g, Finished(Refused)), id, op, [b] + rest);
    FinishedStays(registry, Move(g, Finished(Refused)), id, op, rest);
    assert Turn(registry, g, id, op.(pc := ReadLoading), a) == ReadLoad(g, op, a);
    if ReadLoad(g, op, a).pc.Peeking? {
      SoloOne(registry, Move(g, Peeking), id, op, [b] + rest);
      assert Turn(registry, g, id, op.(pc := Peeking), b) == Peek(g, b);
    }
  }

  lemma {:induction false} SoloBurns(registry: Registry, g: Shared, id: nat, op: Op, c: Chance, d: Chance)
    requires g.row.intent.action in registry && g.secret.Some? && d.fault == Fine
    ensures var envelope := g.secret.value.envelope;
            Solo(registry, Move(g, Decrypting(envelope)), id, op, [c] + [d]).shared
            == if envelope.keyId in g.keyring && c.good && !g.secret.value.retrieved
               then g.(secret := Some(StoredSecret(envelope, true)), deliveries := g.deliveries + [Delivery(op.actor.sub, envelope.plaintext)])
               else g
  {
    var envelope := g.secret.value.envelope;
    Split(c, [d]);
    assert [d][1..] == [];
    SoloOne(registry, Move(g, Decrypting(envelope)), id, op, [c] + [d]);
    assert Turn(registry, g, id, op.(pc := Decrypting(envelope)), c) == Decrypt(g, envelope, c);
    var m := Decrypt(g, envelope, c);
    SoloOne(registry, m, id, op, [d]);
    if m.pc.Burning? {
      assert Turn(registry, g, id, op.(pc := m.pc), d) == Burn(g, op, envelope.plaintext, d);
    }
  }

  /**
   An undisturbed read hands out the secret, once, exactly to the maker of an executed change
   whose secret is unread and whose key is at hand; any other read leaves everything as it was.
   */
  lemma ReadingDeliversExactly(registry: Registry, s: State, id: nat, actor: Principal, cs: seq<Chance>)
    requires Inv(registry, s) && id !in s.ops && |cs| == 4 && AllFine(cs)
    ensures var g, t := s.shared, After(registry, s, [StartRead(id, actor)] + Steps(id, cs));
            t.shared == if MayTake(g, actor) && cs[0].good && cs[2].good
                        then g.(secret := Some(g.secret.value.(retrieved := true)),
                                deliveries := g.deliveries + [Delivery(actor.sub, g.secret.value.envelope.plaintext)])
                        else g
  {
    var g, op := s.shared, Op(actor, None, false, ReadLoading);
    AfterBoth(registry, s, [StartRead(id, actor)], Steps(id, cs));
    AfterOne(registry, s, StartRead(id, actor));
    SoloIsAfter(registry, Start(s, id, op), id, cs);
    assert cs == [cs[0]] + ([cs[1]] + ([cs[2]] + [cs[3]]));
    SoloOpens(registry, g, id, op, cs[0], cs[1], [cs[2]] + [cs[3]]);
    if g.secret.Some? {
      SoloBurns(registry, g, id, op, cs[2], cs[3]);
    }
  }
}
