/** What becomes of a change request over any interleaving from a given state, and runs that show the limits. */
module ChangeRuns {
  import opened Basics
  import opened ApprovalBar
  import opened ChangeStore
  import opened ChangePropose
  import opened ChangeProtocol
  import opened ChangeSafety
  import opened ChangeTheorems

  function Act(registry: Registry, s: State, a: Action): State {
    if s.shared.row.intent.action in registry then Step(registry, s, a) else s
  }

  /** The state after an interleaving. */
  function After(registry: Registry, s: State, actions: seq<Action>): State
    decreases |actions|
  {
    if actions == [] then s else After(registry, Act(registry, s, actions[0]), actions[1..])
  }

  lemma {:induction false} StepMovesForward(registry: Registry, s: State, a: Action)
    requires Inv(registry, s)
    ensures Inv(registry, Step(registry, s, a)) && Later(s.shared, Step(registry, s, a).shared)
  {
    var mover := StepKeepsInv(registry, s, a);
    EvolvedIsLater(s.shared, Step(registry, s, a).shared, mover);
  }

  lemma {:induction false} AfterMovesForward(registry: Registry, s: State, actions: seq<Action>)
    requires Inv(registry, s)
    ensures Inv(registry, After(registry, s, actions)) && Later(s.shared, After(registry, s, actions).shared)
    decreases |actions|
  {
    if actions != [] {
      StepMovesForward(registry, s, actions[0]);
      AfterMovesForward(registry, Step(registry, s, actions[0]), actions[1..]);
    }
  }

  lemma {:induction false} AfterBoth(registry: Registry, s: State, first: seq<Action>, second: seq<Action>)
    ensures After(registry, s, first + second) == After(registry, After(registry, s, first), second)
    decreases |first|
  {
    if first == [] {
      assert first + second == second;
    } else {
      assert (first + second)[1..] == first[1..] + second;
      AfterBoth(registry, Act(registry, s, first[0]), first[1..], second);
    }
  }

  lemma AfterOne(registry: Registry, s: State, a: Action)
    ensures After(registry, s, [a]) == Act(registry, s, a)
  {
    assert [a][1..] == [];
  }

  lemma AfterTwo(registry: Registry, s: State, a: Action, b: Action)
    ensures After(registry, s, [a, b]) == Act(registry, Act(registry, s, a), b)
  {
    assert [a, b][1..] == [b];
    AfterOne(registry, Act(registry, s, a), b);
  }

  /** Every interleaving from a stored proposal is a run of the system. */
  lemma {:induction false} AfterIsReached(registry: Registry, b: seq<State>, actions: seq<Action>) returns (longer: seq<State>)
    requires Behavior(registry, b)
    ensures Behavior(registry, longer) && b <= longer
    ensures longer[|longer| - 1] == After(registry, b[|b| - 1], actions)
    decreases |actions|
  {
    var s := b[|b| - 1];
    if actions == [] {
      longer := b;
    } else {
      ActionIsKnown(registry, b);
      Extends(registry, b, actions[0]);
      longer := AfterIsReached(registry, b + [Step(registry, s, actions[0])], actions[1..]);
    }
  }

  lemma ActionIsKnown(registry: Registry, b: seq<State>)
    requires Behavior(registry, b)
    ensures b[|b| - 1].shared.row.intent.action in registry
  {
    InvariantHolds(registry, b, |b| - 1);
  }

  lemma Extends(registry: Registry, b: seq<State>, a: Action)
    requires Behavior(registry, b) && b[|b| - 1].shared.row.intent.action in registry
    ensures Behavior(registry, b + [Step(registry, b[|b| - 1], a)])
  {
    var c := b + [Step(registry, b[|b| - 1], a)];
    forall i: nat | i + 1 < |c| ensures NextAt(registry, c, i) {
      if i + 1 < |b| {
        assert NextAt(registry, b, i);
      }
    }
  }

  // ---- claimed runs settle the row -----------------------------------------

  predicate Moves(a: Action, id: nat) {
    a.Advance? && a.id == id
  }

  function TurnsOf(actions: seq<Action>, id: nat): nat {
    if actions == [] then 0 else (if Moves(actions[0], id) then 1 else 0) + TurnsOf(actions[1..], id)
  }

  /** None of the store calls of run `id` fails. */
  predicate FaultFree(actions: seq<Action>, id: nat) {
    forall i | 0 <= i < |actions| && Moves(actions[i], id) :: actions[i].chance.fault == Fine
  }

  predicate Settled(status: Status) {
    status == Executed || status == Failed
  }

  /**
   In any interleaving in which a claimed run takes the steps it still needs, at most five, and
   its store calls succeed, the row ends executed or failed.
   */
  lemma {:induction false} ClaimedRunSettles(registry: Registry, s: State, actions: seq<Action>, id: nat)
    requires Inv(registry, s) && id in s.ops && Holding(s.ops[id].pc)
    requires FaultFree(actions, id) && TurnsOf(actions, id) >= Remaining(s.ops[id].pc)
    ensures Settled(After(registry, s, actions).shared.row.status)
    decreases |actions|
  {
    var t, rest := Step(registry, s, actions[0]), actions[1..];
    StepMovesForward(registry, s, actions[0]);
    if Moves(actions[0], id) {
      HolderSettles(registry, s, id, actions[0].chance);
      if Settled(t.shared.row.status) {
        AfterMovesForward(registry, t, rest);
      } else {
        ClaimedRunSettles(registry, t, rest, id);
      }
    } else {
      HolderUndisturbed(registry, s, id, actions[0]);
      ClaimedRunSettles(registry, t, rest, id);
    }
  }

  /** The same, of any state of any run. */
  lemma ReachedClaimSettles(registry: Registry, b: seq<State>, i: nat, actions: seq<Action>, id: nat)
    requires Behavior(registry, b) && i < |b| && id in b[i].ops && Holding(b[i].ops[id].pc)
    requires FaultFree(actions, id) && TurnsOf(actions, id) >= 5
    ensures Settled(After(registry, b[i], actions).shared.row.status)
  {
    InvariantHolds(registry, b, i);
    ClaimedRunSettles(registry, b[i], actions, id);
  }

  // ---- a settled row has had all its effects -------------------------------

  lemma {:induction false} OnlyRunningAddsEffects(registry: Registry, g: Shared, id: nat, op: Op, c: Chance)
    requires g.row.intent.action in registry && !op.pc.Running?
    ensures Turn(registry, g, id, op, c).shared.effects == g.effects
  {
  }

  /** Nobody but the holder of the claim adds an effect, and it only while the row is executing. */
  lemma {:induction false} EffectsNeedTheClaim(registry: Registry, s: State, a: Action)
    requires Inv(registry, s) && !(a.Advance? && a.id in s.ops && s.ops[a.id].pc.Running?)
    ensures Step(registry, s, a).shared.effects == s.shared.effects
  {
    if a.Advance? && a.id in s.ops {
      OnlyRunningAddsEffects(registry, s.shared, a.id, s.ops[a.id], a.chance);
    }
  }

  /** Once executed, failed or denied, a change has no further effect. */
  lemma {:induction false} SettledRowHasNoMoreEffects(registry: Registry, s: State, actions: seq<Action>)
    requires Inv(registry, s) && (Settled(s.shared.row.status) || s.shared.row.status == Denied)
    ensures After(registry, s, actions).shared.effects == s.shared.effects
    ensures After(registry, s, actions).shared.row == s.shared.row
    decreases |actions|
  {
    if actions != [] {
      var a := actions[0];
      if a.Advance? && a.id in s.ops {
        assert RunOk(registry, s.shared, a.id, s.ops[a.id]);
      }
      EffectsNeedTheClaim(registry, s, a);
      StepMovesForward(registry, s, a);
      SettledRowHasNoMoreEffects(registry, Step(registry, s, a), actions[1..]);
    }
  }

  // ---- stale targets -------------------------------------------------------

  lemma {:induction false} FailingRunFails(registry: Registry, s: State, actions: seq<Action>, id: nat)
    requires Inv(registry, s) && id in s.ops && s.ops[id].pc.MarkingFailed?
    requires FaultFree(actions, id) && TurnsOf(actions, id) >= 1
    ensures After(registry, s, actions).shared.row.status == Failed
    ensures After(registry, s, actions).shared.effects == s.shared.effects
    decreases |actions|
  {
    var a, t, rest := actions[0], Step(registry, s, actions[0]), actions[1..];
    assert RunOk(registry, s.shared, id, s.ops[id]);
    if a.Advance? && a.id in s.ops {
      assert RunOk(registry, s.shared, a.id, s.ops[a.id]);
    }
    EffectsNeedTheClaim(registry, s, a);
    StepMovesForward(registry, s, a);
    if Moves(a, id) {
      assert t.shared.row.status == Failed;
      SettledRowHasNoMoreEffects(registry, t, rest);
    } else {
      HolderUndisturbed(registry, s, id, a);
      FailingRunFails(registry, t, rest, id);
    }
  }

  /**
   A target that changed since the proposal, or cannot be read, at the recheck: whatever
   interleaves with the run after that, once it has moved again the change is failed and
   no side effect has run.
   */
  lemma StaleTargetFailsWithoutEffect(registry: Registry, b: seq<State>, i: nat, id: nat, c: Chance, actions: seq<Action>)
    requires Behavior(registry, b) && i < |b| && id in b[i].ops && b[i].ops[id].pc.Rechecking?
    requires b[i].shared.row.intent.action in registry && b[i].shared.row.intent.token.Some?
    requires !c.good || Capture(registry[b[i].shared.row.intent.action], b[i].shared.target) != b[i].shared.row.intent.token
    requires FaultFree(actions, id) && TurnsOf(actions, id) >= 1
    ensures var t := After(registry, Step(registry, b[i], Advance(id, c)), actions);
            t.shared.row.status == Failed && t.shared.effects == []
  {
    InvariantHolds(registry, b, i);
    assert RunOk(registry, b[i].shared, id, b[i].ops[id]);
    StepMovesForward(registry, b[i], Advance(id, c));
    FailingRunFails(registry, Step(registry, b[i], Advance(id, c)), actions, id);
  }

  // ---- approval after expiry -----------------------------------------------

  lemma {:induction false} LapsedAfter(registry: Registry, s: State, actions: seq<Action>)
    requires Inv(registry, s) && Lapsed(registry, s)
    ensures Lapsed(registry, After(registry, s, actions))
    decreases |actions|
  {
    if actions != [] {
      LapsedStep(registry, s, actions[0]);
      StepMovesForward(registry, s, actions[0]);
      LapsedAfter(registry, Step(registry, s, actions[0]), actions[1..]);
    }
  }

  function Quietly(begun: int): Chance {
    Chance(Fine, begun, true, "", Reject)
  }

  lemma {:induction false} WinnerWins(registry: Registry, s: State, id: nat)
    requires Inv(registry, s) && id in s.ops && CanWin(s.shared, s.ops[id])
    requires s.shared.row.status == Pending && s.shared.row.intent.bar.required == 1
    ensures After(registry, s, [Advance(id, Quietly(s.ops[id].pc.at))]).shared.row.status == Approved
  {
    assert RunOk(registry, s.shared, id, s.ops[id]);
    AfterOne(registry, s, Advance(id, Quietly(s.ops[id].pc.at)));
  }

  /**
   A pending request past its expiry can still be approved exactly when it needs one approver
   and one is under way that had finished every check before the expiry. One that was still
   previewing then is refused.
   */
  lemma ApprovableAfterExpiryExactly(registry: Registry, b: seq<State>, i: nat)
    requires Behavior(registry, b) && i < |b|
    requires b[i].shared.row.status == Pending && b[i].shared.clock >= b[i].shared.row.intent.expiresAt
    ensures (exists actions :: After(registry, b[i], actions).shared.row.status == Approved)
       <==> b[i].shared.row.intent.bar.required == 1
            && exists id :: id in b[i].ops && CanWin(b[i].shared, b[i].ops[id])
  {
    var s := b[i];
    InvariantHolds(registry, b, i);
    if s.shared.row.intent.bar.required == 1 && exists id :: id in s.ops && CanWin(s.shared, s.ops[id]) {
      var id :| id in s.ops && CanWin(s.shared, s.ops[id]);
      WinnerWins(registry, s, id);
    } else {
      assert Lapsed(registry, s);
      forall actions ensures After(registry, s, actions).shared.row.status != Approved {
        LapsedAfter(registry, s, actions);
      }
    }
  }

  // ---- denial after expiry -------------------------------------------------

  /** A denier whose statement may have begun before the expiry. */
  predicate CanDeny(g: Shared, op: Op) {
    op.pc.Denying? && op.pc.at < g.row.intent.expiresAt
  }

  ghost predicate Undeniable(s: State) {
    && s.shared.row.status != Denied && s.shared.clock >= s.shared.row.intent.expiresAt
    && forall id | id in s.ops :: !CanDeny(s.shared, s.ops[id])
  }

  lemma {:induction false} ApproveTurnAside(registry: Registry, g: Shared, id: nat, op: Op, c: Chance)
    requires g.row.intent.action in registry
    ensures var m := ApproveTurn(registry, g, id, op, c);
            && m.shared.keyring == g.keyring && (m.pc.Denying? ==> op.pc.Denying?)
            && (m.shared.row.status == Denied ==> g.row.status == Denied)
  {
  }

  lemma {:induction false} ExecuteTurnAside(registry: Registry, g: Shared, id: nat, op: Op, c: Chance)
    requires g.row.intent.action in registry
    ensures var m := ExecuteTurn(registry, g, id, op, c);
            && m.shared.keyring == g.keyring && (m.pc.Denying? ==> op.pc.Denying?)
            && (m.shared.row.status == Denied ==> g.row.status == Denied)
  {
  }

  lemma {:induction false} OtherTurnAside(g: Shared, op: Op, c: Chance)
    ensures OtherTurn(g, op, c).shared.keyring == g.keyring
    ensures g.row.status != Denied && g.clock >= g.row.intent.expiresAt && !CanDeny(g, op) ==>
              var m := OtherTurn(g, op, c); m.shared.row.status != Denied && !CanDeny(g, op.(pc := m.pc))
  {
  }

  lemma {:induction false} UndeniableTurn(registry: Registry, g: Shared, id: nat, op: Op, c: Chance)
    requires g.row.intent.action in registry
    requires g.row.status != Denied && g.clock >= g.row.intent.expiresAt && !CanDeny(g, op)
    ensures var m := Turn(registry, g, id, op, c);
            m.shared.row.status != Denied && !CanDeny(g, op.(pc := m.pc))
  {
    if Approving(op.pc) {
      ApproveTurnAside(registry, g, id, op, c);
    } else if Serving(op.pc) {
      OtherTurnAside(g, op, c);
    } else {
      ExecuteTurnAside(registry, g, id, op, c);
    }
  }

  lemma {:induction false} UndeniableStep(registry: Registry, s: State, a: Action)
    requires Inv(registry, s) && Undeniable(s)
    ensures Undeniable(Step(registry, s, a))
  {
    StepMovesForward(registry, s, a);
    if a.Advance? && a.id in s.ops {
      UndeniableTurn(registry, s.shared, a.id, s.ops[a.id], a.chance);
    }
  }

  lemma {:induction false} UndeniableAfter(registry: Registry, s: State, actions: seq<Action>)
    requires Inv(registry, s) && Undeniable(s)
    ensures Undeniable(After(registry, s, actions))
    decreases |actions|
  {
    if actions != [] {
      UndeniableStep(registry, s, actions[0]);
      StepMovesForward(registry, s, actions[0]);
      UndeniableAfter(registry, Step(registry, s, actions[0]), actions[1..]);
    }
  }

  lemma {:induction false} DenierDenies(registry: Registry, s: State, id: nat)
    requires Inv(registry, s) && id in s.ops && CanDeny(s.shared, s.ops[id]) && s.shared.row.status == Pending
    ensures After(registry, s, [Advance(id, Quietly(s.ops[id].pc.at))]).shared.row.status == Denied
  {
    AfterOne(registry, s, Advance(id, Quietly(s.ops[id].pc.at)));
  }

  /** A pending request past its expiry can still be denied exactly when a denier under way had loaded it before. */
  lemma DeniableAfterExpiryExactly(registry: Registry, b: seq<State>, i: nat)
    requires Behavior(registry, b) && i < |b|
    requires b[i].shared.row.status == Pending && b[i].shared.clock >= b[i].shared.row.intent.expiresAt
    ensures (exists actions :: After(registry, b[i], actions).shared.row.status == Denied)
       <==> exists id :: id in b[i].ops && CanDeny(b[i].shared, b[i].ops[id])
  {
    var s := b[i];
    InvariantHolds(registry, b, i);
    if exists id :: id in s.ops && CanDeny(s.shared, s.ops[id]) {
      var id :| id in s.ops && CanDeny(s.shared, s.ops[id]);
      DenierDenies(registry, s, id);
    } else {
      forall actions ensures After(registry, s, actions).shared.row.status != Denied {
        UndeniableAfter(registry, s, actions);
      }
    }
  }

  // ---- overwriting an edit -------------------------------------------------

  /** An edit of the target, and then a step of run `id` that writes over just that edit. */
  predicate Overwrites(registry: Registry, s: State, id: nat, content: Option<string>, c: Chance) {
    var edited := After(registry, s, [Edit(content)]).shared;
    var effects := After(registry, s, [Edit(content), Advance(id, c)]).shared.effects;
    |effects| == |edited.effects| + 1 && effects[|edited.effects|].before == edited.target
  }

  ghost predicate Overwritable(registry: Registry, s: State, id: nat, content: Option<string>) {
    exists c :: Overwrites(registry, s, id, content, c)
  }

  /** The target still has the witness of the proposal after the edit. */
  predicate KeepsWitness(e: Executor, g: Shared, content: Option<string>) {
    Capture(e, EditTarget(g, content).target) == g.row.intent.token
  }

  function Writing(): Chance {
    Chance(Fine, 0, true, "", Write(None, None, true))
  }

  lemma {:induction false} OverwritesWhen(registry: Registry, s: State, id: nat, content: Option<string>, c: Chance)
    requires Inv(registry, s) && id in s.ops && s.ops[id].pc.Running? && s.shared.row.intent.token.Some?
    ensures var e := registry[s.shared.row.intent.action];
            Overwrites(registry, s, id, content, c) <==>
              && c.execution.Write?
              && (!e.binds || KeepsWitness(e, s.shared, content))
  {
    AfterOne(registry, s, Edit(content));
    AfterTwo(registry, s, Edit(content), Advance(id, c));
  }

  lemma {:induction false} OverwritableByEdit(registry: Registry, s: State, id: nat, content: Option<string>)
    requires Inv(registry, s) && id in s.ops && s.ops[id].pc.Running? && s.shared.row.intent.token.Some?
    ensures var e := registry[s.shared.row.intent.action];
            Overwritable(registry, s, id, content) <==> !e.binds || KeepsWitness(e, s.shared, content)
  {
    OverwritesWhen(registry, s, id, content, Writing());
    forall c ensures Overwrites(registry, s, id, content, c) ==> Overwrites(registry, s, id, content, Writing()) {
      OverwritesWhen(registry, s, id, content, c);
    }
  }

  /** An edit can leave the witness as it was exactly when the witness is not a version. */
  lemma SomeEditKeepsWitness(registry: Registry, g: Shared)
    requires SharedOk(registry, g) && g.row.intent.token.Some?
    ensures var e := registry[g.row.intent.action];
            (exists content :: KeepsWitness(e, g, content)) <==> !e.versioned
  {
    var e, same := registry[g.row.intent.action], Some(g.captured.value.content);
    assert !e.versioned ==> KeepsWitness(e, g, same);
  }

  /**
   A request that carries a witness, rechecked and about to run: an edit that lands now is
   written over exactly when the executor does not bind the witness or the edit leaves it as
   it was. So some edit can be written over exactly unless the executor binds a version.
   */
  lemma OverwritableExactly(registry: Registry, b: seq<State>, i: nat, id: nat)
    requires Behavior(registry, b) && i < |b| && id in b[i].ops && b[i].ops[id].pc.Running?
    requires b[i].shared.row.intent.token.Some? && b[i].shared.row.intent.action in registry
    ensures var s := b[i]; var e := registry[s.shared.row.intent.action];
            && (forall content ::
                  Overwritable(registry, s, id, content) <==> !e.binds || KeepsWitness(e, s.shared, content))
            && ((exists content :: Overwritable(registry, s, id, content)) <==> !(e.binds && e.versioned))
  {
    InvariantHolds(registry, b, i);
    var e := registry[b[i].shared.row.intent.action];
    forall content
      ensures Overwritable(registry, b[i], id, content) <==> !e.binds || KeepsWitness(e, b[i].shared, content)
    {
      OverwritableByEdit(registry, b[i], id, content);
    }
    assert !e.binds ==> Overwritable(registry, b[i], id, None);
    SomeEditKeepsWitness(registry, b[i].shared);
  }

  // ---- the secret reaches its maker ----------------------------------------

  /** Steps a reader still needs. */
  function ReadsLeft(pc: Pc): nat {
    match pc
    case ReadLoading => 4
    case Peeking => 3
    case Decrypting(_) => 2
    case Burning(_) => 1
    case _ => 0
  }

  predicate MayRead(g: Shared, op: Op) {
    op.actor.sub == g.row.intent.requestedBy && op.actor.tenant == g.row.intent.tenant && ReadsLeft(op.pc) > 0
  }

  /** The reads of run `id` are admitted, no reply of anybody is lost, and no key change drops `keyId`. */
  predicate Smooth(actions: seq<Action>, id: nat, keyId: string) {
    forall i | 0 <= i < |actions| :: SmoothAction(actions[i], id, keyId)
  }

  predicate SmoothAction(a: Action, id: nat, keyId: string) {
    && (Moves(a, id) ==> a.chance.fault == Fine && a.chance.good)
    && (a.Advance? ==> a.chance.fault != LostAfter)
    && (a.Rekey? ==> keyId in a.keyring)
  }

  ghost predicate Unread(s: State, keyId: string) {
    var g := s.shared;
    && g.row.status == Executed && g.secret.Some? && !g.secret.value.retrieved
    && g.secret.value.envelope.keyId == keyId && keyId in g.keyring
  }

  lemma {:induction false} KeyringKept(registry: Registry, s: State, a: Action)
    requires Inv(registry, s) && !a.Rekey?
    ensures Step(registry, s, a).shared.keyring == s.shared.keyring
  {
    if a.Advance? && a.id in s.ops {
      ApproveTurnAside(registry, s.shared, a.id, s.ops[a.id], a.chance);
      ExecuteTurnAside(registry, s.shared, a.id, s.ops[a.id], a.chance);
      OtherTurnAside(s.shared, s.ops[a.id], a.chance);
    }
  }

  lemma {:induction false} SecretStays(registry: Registry, s: State, a: Action)
    requires Inv(registry, s) && s.shared.row.status == Executed && s.shared.secret.Some?
    ensures var g, g' := s.shared, Step(registry, s, a).shared;
            g'.row == g.row && g'.secret.Some? && g'.secret.value.envelope == g.secret.value.envelope
  {
    var mover := StepKeepsInv(registry, s, a);
  }

  /** A smooth step leaves the secret unread, or hands it to its maker. */
  lemma {:induction false} UnreadOrDelivered(registry: Registry, s: State, a: Action, id: nat, keyId: string)
    requires Inv(registry, s) && Unread(s, keyId) && SmoothAction(a, id, keyId)
    ensures var t := Step(registry, s, a); Unread(t, keyId) || t.shared.deliveries != []
  {
    var t := Step(registry, s, a);
    SecretStays(registry, s, a);
    if t.shared.secret.value.retrieved {
      ConsumingStep(registry, s, a);
    } else if !a.Rekey? {
      KeyringKept(registry, s, a);
    }
  }

  lemma {:induction false} ReaderAdvances(registry: Registry, s: State, id: nat, c: Chance, keyId: string)
    requires Inv(registry, s) && Unread(s, keyId) && id in s.ops && MayRead(s.shared, s.ops[id])
    requires c.fault == Fine && c.good
    ensures var t := Step(registry, s, Advance(id, c));
            || t.shared.deliveries != []
            || (MayRead(t.shared, t.ops[id]) && ReadsLeft(t.ops[id].pc) + 1 == ReadsLeft(s.ops[id].pc))
  {
    assert RunOk(registry, s.shared, id, s.ops[id]);
  }

  lemma {:induction false} ReaderUndisturbed(registry: Registry, s: State, a: Action, id: nat)
    requires Inv(registry, s) && id in s.ops && !Moves(a, id)
    ensures id in Step(registry, s, a).ops && Step(registry, s, a).ops[id] == s.ops[id]
  {
  }

  /** One smooth action: delivered, or still unread with the reader as near as before and nearer for its own step. */
  lemma {:induction false} ReaderProgress(registry: Registry, s: State, a: Action, id: nat, keyId: string)
    requires Inv(registry, s) && Unread(s, keyId) && id in s.ops && MayRead(s.shared, s.ops[id])
    requires SmoothAction(a, id, keyId)
    ensures var t := Step(registry, s, a);
            || t.shared.deliveries != []
            || (Unread(t, keyId) && id in t.ops && MayRead(t.shared, t.ops[id])
                && ReadsLeft(t.ops[id].pc) + (if Moves(a, id) then 1 else 0) == ReadsLeft(s.ops[id].pc))
  {
    UnreadOrDelivered(registry, s, a, id, keyId);
    if Moves(a, id) {
      ReaderAdvances(registry, s, id, a.chance, keyId);
    } else {
      ReaderUndisturbed(registry, s, a, id);
      StepMovesForward(registry, s, a);
    }
  }

  lemma SameText(registry: Registry, s: State, t: State)
    requires Inv(registry, s) && Inv(registry, t) && Later(s.shared, t.shared)
    requires s.shared.secret.Some? && t.shared.secret.Some?
    ensures t.shared.secret.value.envelope.plaintext == s.shared.secret.value.envelope.plaintext
  {
  }

  lemma DeliveredText(registry: Registry, s: State, t: State, u: State)
    requires Inv(registry, s) && Inv(registry, t) && Inv(registry, u) && Later(s.shared, t.shared) && Later(t.shared, u.shared)
    requires s.shared.secret.Some? && t.shared.deliveries != []
    ensures u.shared.deliveries == [Delivery(s.shared.row.intent.requestedBy, s.shared.secret.value.envelope.plaintext)]
  {
    SameText(registry, s, t);
  }

  /**
   In any smooth interleaving in which a reader of the maker's takes the steps it still needs,
   at most four, the unread secret of an executed change is handed to its maker, by that reader
   or by another of the maker's.
   */
  lemma {:induction false} UnreadSecretIsDelivered(registry: Registry, s: State, actions: seq<Action>, id: nat, keyId: string)
    requires Inv(registry, s) && Unread(s, keyId) && id in s.ops && MayRead(s.shared, s.ops[id])
    requires Smooth(actions, id, keyId) && TurnsOf(actions, id) >= ReadsLeft(s.ops[id].pc)
    ensures After(registry, s, actions).shared.deliveries
         == [Delivery(s.shared.row.intent.requestedBy, s.shared.secret.value.envelope.plaintext)]
    decreases |actions|
  {
    var t, rest := Step(registry, s, actions[0]), actions[1..];
    assert SmoothAction(actions[0], id, keyId);
    ReaderProgress(registry, s, actions[0], id, keyId);
    StepMovesForward(registry, s, actions[0]);
    if t.shared.deliveries == [] {
      SameText(registry, s, t);
      UnreadSecretIsDelivered(registry, t, rest, id, keyId);
    } else {
      AfterMovesForward(registry, t, rest);
      DeliveredText(registry, s, t, After(registry, t, rest));
    }
  }

  // ---- the limits are reached ----------------------------------------------

  /** The executor witnesses the content of its target and writes unconditionally. */
  const UNBOUND: Registry := map["act" := Executor(Bar(1, DefaultRole, [], None), false, false, false, false)]
  const APPROVER: Principal := Principal("a", "t", [])

  const REVIEWED: Target := Target(0, "reviewed")

  /** A proposal that carries a witness and expires after a second. */
  function Proposed(): State {
    var intent := Intent(0, "t", "m", "act", UNBOUND["act"].bar, Some(ContentHash("reviewed")), 0, NANOS);
    State(Shared(0, NewRow(intent), [], None, Some(REVIEWED), 0, [], {}, "", Some(REVIEWED), [], None, [], []), map[])
  }

  lemma ProposedIsInit()
    ensures Init(UNBOUND, Proposed())
  {
    var req := Request("act", "why", 0, true, Some(1));
    assert !IsSpace("act"[0]) && !IsSpace("why"[0]);
    assert !IsBlank("act") && !IsBlank("why");
    assert Propose(UNBOUND, 0, Principal("m", "t", []), req, Some(REVIEWED), true, 0, 0) == Ok(Proposed().shared.row);
  }

  /** The executor deletes the target and reports success. */
  function Go(): Action {
    Advance(0, Chance(Fine, 0, true, "", Write(None, None, true)))
  }

  function Alone(g: Shared, pc: Pc): State {
    State(g, map[0 := Op(APPROVER, None, false, pc)])
  }

  /** Cleared every check in time, about to decide. */
  function Cleared(): State {
    Alone(Proposed().shared.(passes := [Pass(APPROVER, None, 0, false, false)]), Deciding(Pending, 0))
  }

  function InTime(): seq<Action> {
    [StartApprove(0, APPROVER, None, false), Go()] + [Go(), Go()]
  }

  lemma InTimeClears()
    ensures After(UNBOUND, Proposed(), InTime()) == Cleared()
  {
    var s, g := Proposed(), Proposed().shared;
    AfterTwo(UNBOUND, s, StartApprove(0, APPROVER, None, false), Go());
    assert After(UNBOUND, s, [StartApprove(0, APPROVER, None, false), Go()]) == Alone(g, Checking(g.row));
    AfterTwo(UNBOUND, Alone(g, Checking(g.row)), Go(), Go());
    assert Act(UNBOUND, Alone(g, Checking(g.row)), Go()) == Alone(g, Previewing(Pending, 0));
    AfterBoth(UNBOUND, s, [StartApprove(0, APPROVER, None, false), Go()], [Go(), Go()]);
  }

  /** About to decide when the clock has moved on by `late`. */
  function Overdue(late: nat): State {
    Alone(Cleared().shared.(clock := Min(late, MAX_INSTANT)), Deciding(Pending, 0))
  }

  lemma ReachesOverdue(late: nat)
    ensures After(UNBOUND, Proposed(), InTime() + [Tick(late)]) == Overdue(late)
  {
    InTimeClears();
    AfterBoth(UNBOUND, Proposed(), InTime(), [Tick(late)]);
    AfterOne(UNBOUND, Cleared(), Tick(late));
  }

  /** Approved at the instant it had checked, audited and claimed. */
  function Held(late: nat): Shared {
    var g := Overdue(late).shared;
    g.(row := g.row.(status := Executing, approver := Some("a"), decidedAt := Some(0)),
       audit := [ApproveAudit("a")], claimant := Some(0))
  }

  function Won(late: nat): Shared {
    var g := Overdue(late).shared;
    g.(row := g.row.(status := Approved, approver := Some("a"), decidedAt := Some(0)), audit := [ApproveAudit("a")])
  }

  lemma DecidesLate(late: nat)
    ensures After(UNBOUND, Overdue(late), [Go(), Go()]) == Alone(Won(late), Claiming)
  {
    AfterTwo(UNBOUND, Overdue(late), Go(), Go());
    assert Act(UNBOUND, Overdue(late), Go()) == Alone(Won(late).(audit := []), AuditingApproval);
  }

  lemma ClaimsLate(late: nat)
    ensures After(UNBOUND, Alone(Won(late), Claiming), [Go(), Go()]) == Alone(Held(late), Rechecking)
  {
    AfterTwo(UNBOUND, Alone(Won(late), Claiming), Go(), Go());
    assert Act(UNBOUND, Alone(Won(late), Claiming), Go()) == Alone(Held(late), Resolving);
  }

  /** On the brink of the side effect, the recheck done. */
  function Brink(late: nat): State {
    Alone(Held(late), Running(Some(REVIEWED)))
  }

  function ToBrink(): seq<Action> {
    [Go(), Go()] + [Go(), Go()] + [Go()]
  }

  lemma RechecksLate(late: nat)
    ensures After(UNBOUND, Alone(Held(late), Rechecking), [Go()]) == Brink(late)
  {
    AfterOne(UNBOUND, Alone(Held(late), Rechecking), Go());
  }

  lemma ReachesBrink(late: nat)
    ensures After(UNBOUND, Overdue(late), ToBrink()) == Brink(late)
  {
    var two, one := [Go(), Go()], [Go()];
    DecidesLate(late);
    ClaimsLate(late);
    RechecksLate(late);
    AfterBoth(UNBOUND, Overdue(late), two, two);
    AfterBoth(UNBOUND, Overdue(late), two + two, one);
  }

  lemma Fires(late: nat)
    ensures After(UNBOUND, Brink(late), [Go()]).shared.effects != []
  {
    AfterOne(UNBOUND, Brink(late), Go());
  }

  lemma OverdueReadsExpired(late: nat)
    requires late >= NANOS
    ensures var g := Overdue(late).shared; EffectiveStatus(g.row, g.clock) == Expired && g.effects == []
  {
  }

  /**
   A run in which the request reads as expired and undecided, and its side effect still runs
   later: the one approver had checked in time.
   */
  lemma EffectCanFollowExpiry() returns (first: seq<Action>, rest: seq<Action>)
    ensures Init(UNBOUND, Proposed())
    ensures var t := After(UNBOUND, Proposed(), first);
            && EffectiveStatus(t.shared.row, t.shared.clock) == Expired && t.shared.effects == []
            && After(UNBOUND, t, rest).shared.effects != []
  {
    var late := 2 * NANOS;
    ProposedIsInit();
    first, rest := InTime() + [Tick(late)], ToBrink() + [Go()];
    ReachesOverdue(late);
    OverdueReadsExpired(late);
    ReachesBrink(late);
    Fires(late);
    AfterBoth(UNBOUND, Overdue(late), ToBrink(), [Go()]);
  }

  /** The recheck found the witness of the proposal, the edit does not have it, and the effect replaced the edit. */
  predicate EditLost(edited: Shared, g: Shared, edit: string) {
    var e, token := UNBOUND["act"], edited.row.intent.token;
    && edited.target == Some(Target(1, edit)) && edited.effects == []
    && |g.effects| == 1 && g.effects[0].before == edited.target && g.target == None
    && token.Some? && Capture(e, g.effects[0].rechecked) == token && Capture(e, edited.target) != token
  }

  lemma OverwritesEdit(edit: string)
    requires edit != "reviewed"
    ensures var edited := After(UNBOUND, Brink(0), [Edit(Some(edit))]);
            EditLost(edited.shared, After(UNBOUND, edited, [Go()]).shared, edit)
  {
    AfterOne(UNBOUND, Brink(0), Edit(Some(edit)));
    AfterOne(UNBOUND, Act(UNBOUND, Brink(0), Edit(Some(edit))), Go());
  }

  /** A run in which an unconditional executor overwrites an edit that landed after its recheck. */
  lemma UnconditionalWriteCanOverwrite(edit: string) returns (actions: seq<Action>)
    requires edit != "reviewed"
    ensures Init(UNBOUND, Proposed())
    ensures var edited := After(UNBOUND, Proposed(), actions);
            EditLost(edited.shared, After(UNBOUND, edited, [Go()]).shared, edit)
  {
    ProposedIsInit();
    ReachesOverdue(0);
    ReachesBrink(0);
    OverwritesEdit(edit);
    var soon := InTime() + [Tick(0)];
    AfterBoth(UNBOUND, Proposed(), soon, ToBrink());
    AfterBoth(UNBOUND, Proposed(), soon + ToBrink(), [Edit(Some(edit))]);
    actions := soon + ToBrink() + [Edit(Some(edit))];
  }
}
