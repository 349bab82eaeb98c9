/**
 Execution-bound approval grants: approvers mint, re-read and withdraw, while the broker
 sweeps grants and replaces the pending request. Every store call is one atomic step.
 */
module GrantProtocol {
  import opened Basics

  datatype Principal = Principal(sub: string, issuer: string)

  /** A stored pending request. Its digest identifies it; `readable` says its profile, shape and source still fit. */
  datatype Request = Request(id: nat, readable: bool)

  datatype Status = Submitted | Running | WaitingForApproval(request: Request) | WaitingForResume | Done

  datatype Row = Row(status: Status, epoch: nat, claimed: bool, cancelling: bool)

  datatype Grant = Grant(request: Request, approver: Principal, run: nat, live: bool)

  /** A worker holds the claim it was given, until another epoch begins. `mark` is how many grants its sweep saw. */
  datatype WorkerPc = Active | Swept(request: Request, mark: nat) | Gone
  datatype Worker = Worker(epoch: nat, pc: WorkerPc)

  datatype Pc =
    | Start
    | Checked(request: Request)
    | Minted(grant: nat)
    | Granted(grant: nat)
    | Superseded(grant: nat)
    | Withdrawn(grant: nat)
    | Refused
    | Broken

  datatype Run = Run(who: Principal, reviewed: Option<Request>, pc: Pc)

  datatype Owner = Owner(sub: string, issuer: Option<string>)

  /** `last` is the request most recently made pending, and `swept` how many grants existed at the sweep before it. */
  datatype State = State(
    owner: Owner, row: Row, grants: seq<Grant>, runs: seq<Run>, workers: seq<Worker>,
    last: Option<Request>, swept: nat)

  datatype Fault = NoFault | Lost | LostAfterWrite

  datatype Action =
    | Claim
    | Resume
    | Sweep(worker: nat, request: Request)
    | Commit(worker: nat, leased: bool)
    | Leave(worker: nat, next: Status, leased: bool)
    | Lapse(resumable: bool)
    | Expire
    | Cancel(lapsed: bool)
    | Deny(expected: Option<Request>)
    | Retire(grant: nat)
    | Arrive(who: Principal, reviewed: Option<Request>)
    | Advance(run: nat, fault: Fault, toolFits: bool)

  /** The request an approver is shown, as long as one is waiting and readable. */
  function Pending(row: Row): Option<Request> {
    if row.status.WaitingForApproval? && row.status.request.readable then Some(row.status.request) else None
  }

  predicate Waiting(status: Status) {
    status.WaitingForApproval? || status.WaitingForResume?
  }

  // ---- the execution row ---------------------------------------------------

  /** Starting to run opens a new epoch and hands its claim to a fresh worker. */
  function Begin(s: State): State {
    s.(row := Row(Running, s.row.epoch + 1, true, s.row.cancelling), workers := s.workers + [Worker(s.row.epoch + 1, Active)])
  }

  /** The fence on every worker's write: it still holds the running claim. */
  predicate Holds(row: Row, w: Worker) {
    row.status.Running? && row.claimed && row.epoch == w.epoch
  }

  function Kill(grants: seq<Grant>): seq<Grant> {
    seq(|grants|, i requires 0 <= i < |grants| => grants[i].(live := false))
  }

  function SweepStep(s: State, i: nat, request: Request): State
    requires i < |s.workers|
  {
    s.(grants := Kill(s.grants), workers := s.workers[i := s.workers[i].(pc := Swept(request, |s.grants|))])
  }

  function CommitStep(s: State, i: nat, leased: bool): State
    requires i < |s.workers| && s.workers[i].pc.Swept?
  {
    var w := s.workers[i];
    var gone := s.workers[i := w.(pc := Gone)];
    if Holds(s.row, w) && leased && !s.row.cancelling then
      s.(row := s.row.(status := WaitingForApproval(w.pc.request), claimed := false), workers := gone,
         last := Some(w.pc.request), swept := w.pc.mark)
    else s.(workers := gone)
  }

  function LeaveStep(s: State, i: nat, next: Status, leased: bool): State
    requires i < |s.workers|
  {
    var w := s.workers[i];
    var gone := s.workers[i := w.(pc := Gone)];
    if Holds(s.row, w) && leased && (next.WaitingForResume? || next.Done?) && (next.Done? || !s.row.cancelling)
    then s.(row := s.row.(status := next, claimed := false), workers := gone)
    else s.(workers := gone)
  }

  function RowStep(s: State, a: Action): State {
    match a
    case Claim => if s.row.status.Submitted? && !s.row.claimed then Begin(s) else s
    case Resume => if Waiting(s.row.status) && !s.row.claimed && !s.row.cancelling then Begin(s) else s
    case Lapse(resumable) =>
      if (s.row.status.Running? && s.row.claimed) || s.row.status.Submitted?
      then s.(row := s.row.(status := if resumable then WaitingForResume else Done, claimed := false)) else s
    case Expire => if Waiting(s.row.status) then s.(row := s.row.(status := Done, claimed := false)) else s
    case Cancel(lapsed) =>
      if s.row.status.Done? then s
      else if !s.row.claimed || lapsed then s.(row := s.row.(status := Done, claimed := false, cancelling := true))
      else s.(row := s.row.(cancelling := true))
    case Deny(expected) =>
      if s.row.status.WaitingForApproval? && !s.row.claimed && !s.row.cancelling
         && (expected.None? || expected.value == s.row.status.request)
      then s.(row := s.row.(status := Done)) else s
    case _ => s
  }

  // ---- one approval --------------------------------------------------------

  predicate SamePrincipal(who: Principal, owner: Owner) {
    who.sub == owner.sub && owner.issuer == Some(who.issuer)
  }

  function ReadStep(s: State, run: Run): Pc {
    if s.owner.issuer.None? || SamePrincipal(run.who, s.owner) then Refused
    else if Pending(s.row).None? || run.reviewed != Pending(s.row) then Refused
    else Checked(Pending(s.row).value)
  }

  function At(s: State, i: nat, pc: Pc): State
    requires i < |s.runs|
  {
    s.(runs := s.runs[i := s.runs[i].(pc := pc)])
  }

  function MintStep(s: State, i: nat, fault: Fault): State
    requires i < |s.runs| && s.runs[i].pc.Checked?
  {
    var grant := Grant(s.runs[i].pc.request, s.runs[i].who, i, true);
    At(s, i, if fault.NoFault? then Minted(|s.grants|) else Broken).(grants := s.grants + [grant])
  }

  /** The approver stands by its grant only if what it reviewed is pending now. */
  function RecheckStep(s: State, i: nat): State
    requires i < |s.runs| && s.runs[i].pc.Minted?
  {
    var g := s.runs[i].pc.grant;
    At(s, i, if s.runs[i].reviewed == Pending(s.row) then Granted(g) else Superseded(g))
  }

  function WithdrawStep(s: State, i: nat, fault: Fault): State
    requires i < |s.runs| && s.runs[i].pc.Superseded?
  {
    var g := s.runs[i].pc.grant;
    At(s, i, if fault.NoFault? then Withdrawn(g) else Broken).(grants := Retired(s.grants, g))
  }

  predicate Finished(pc: Pc) {
    pc.Granted? || pc.Withdrawn? || pc.Refused? || pc.Broken?
  }

  /** One store call of an approval. A lost call ends the request; a lost answer ends it after the write. */
  function AdvanceStep(s: State, i: nat, fault: Fault, toolFits: bool): State
    requires i < |s.runs|
  {
    var run := s.runs[i];
    if Finished(run.pc) then s
    else if fault.Lost? then At(s, i, Broken)
    else match run.pc
      case Start => At(s, i, if fault.NoFault? then ReadStep(s, run) else Broken)
      case Checked(_) => if toolFits then MintStep(s, i, fault) else At(s, i, Refused)
      case Minted(_) => if fault.NoFault? then RecheckStep(s, i) else At(s, i, Broken)
      case Superseded(_) => WithdrawStep(s, i, fault)
      case _ => s
  }

  function Retired(grants: seq<Grant>, g: nat): seq<Grant> {
    if g < |grants| then grants[g := grants[g].(live := false)] else grants
  }

  // ---- runs ----------------------------------------------------------------

  function Step(s: State, a: Action): State {
    match a
    case Sweep(w, request) => if w < |s.workers| && !s.workers[w].pc.Gone? then SweepStep(s, w, request) else s
    case Commit(w, leased) => if w < |s.workers| && s.workers[w].pc.Swept? then CommitStep(s, w, leased) else s
    case Leave(w, next, leased) => if w < |s.workers| && !s.workers[w].pc.Gone? then LeaveStep(s, w, next, leased) else s
    case Retire(g) => s.(grants := Retired(s.grants, g))
    case Arrive(who, reviewed) => s.(runs := s.runs + [Run(who, reviewed, Start)])
    case Advance(i, fault, toolFits) => if i < |s.runs| then AdvanceStep(s, i, fault, toolFits) else s
    case _ => RowStep(s, a)
  }

  predicate Init(s: State) {
    s.row == Row(Submitted, 0, false, false) && s.grants == [] && s.runs == [] && s.workers == [] && s.last.None? && s.swept == 0
  }

  /** The state after a run: actors interleave in any order, and a step that is not enabled changes nothing. */
  function After(s: State, actions: seq<Action>): State
    decreases |actions|
  {
    if actions == [] then s else Step(After(s, actions[..|actions| - 1]), actions[|actions| - 1])
  }

  // ---- what every step keeps -----------------------------------------------

  /** An approver that was told its grant stands. */
  predicate Settled(runs: seq<Run>, grants: seq<Grant>, g: nat) {
    g < |grants| && grants[g].run < |runs| && runs[grants[g].run].pc == Granted(g)
  }

  /** An approver that minted and has yet to confirm or withdraw, or was cut off while it still had to. */
  predicate Unsettled(runs: seq<Run>, grants: seq<Grant>, g: nat) {
    && g < |grants| && grants[g].run < |runs|
    && var pc := runs[grants[g].run].pc; pc == Minted(g) || pc == Superseded(g) || pc == Broken
  }

  ghost predicate GrantsOk(owner: Owner, runs: seq<Run>, grants: seq<Grant>, last: Option<Request>, swept: nat) {
    && swept <= |grants|
    && (forall g | 0 <= g < |grants| && grants[g].live :: swept <= g)
    && (forall g | 0 <= g < |grants| && grants[g].live :: Settled(runs, grants, g) || Unsettled(runs, grants, g))
    && (forall g | 0 <= g < |grants| && Settled(runs, grants, g) && grants[g].live :: last == Some(grants[g].request))
    && (forall g | 0 <= g < |grants| :: !SamePrincipal(grants[g].approver, owner))
  }

  ghost predicate RunsOk(owner: Owner, runs: seq<Run>, grants: seq<Grant>) {
    forall i | 0 <= i < |runs| :: RunOk(owner, runs[i], i, grants)
  }

  predicate RunOk(owner: Owner, run: Run, i: nat, grants: seq<Grant>) {
    match run.pc
    case Checked(request) => !SamePrincipal(run.who, owner) && run.reviewed == Some(request)
    case Minted(g) => OwnGrant(run, i, grants, g)
    case Granted(g) => OwnGrant(run, i, grants, g)
    case Superseded(g) => OwnGrant(run, i, grants, g)
    case Withdrawn(g) => OwnGrant(run, i, grants, g) && !grants[g].live
    case _ => true
  }

  /** A run's grant is for the request its approver reviewed. */
  predicate OwnGrant(run: Run, i: nat, grants: seq<Grant>, g: nat) {
    g < |grants| && grants[g].run == i && grants[g].approver == run.who && run.reviewed == Some(grants[g].request)
  }

  ghost predicate RowOk(row: Row, workers: seq<Worker>, last: Option<Request>) {
    && (row.status.WaitingForApproval? ==> last == Some(row.status.request))
    && (forall w | 0 <= w < |workers| :: workers[w].epoch <= row.epoch)
    && (row.claimed <==> row.status.Running?)
  }

  /** Once the worker that holds the claim has swept, no settled grant is live, and none older than its sweep. */
  ghost predicate SweepOk(row: Row, workers: seq<Worker>, runs: seq<Run>, grants: seq<Grant>) {
    forall w | 0 <= w < |workers| && workers[w].pc.Swept? ::
      && workers[w].pc.mark <= |grants|
      && (forall g | 0 <= g < workers[w].pc.mark :: !grants[g].live)
      && (Holds(row, workers[w]) ==> forall g | 0 <= g < |grants| && Settled(runs, grants, g) :: !grants[g].live)
  }

  ghost predicate Inv(s: State) {
    && GrantsOk(s.owner, s.runs, s.grants, s.last, s.swept)
    && RunsOk(s.owner, s.runs, s.grants)
    && RowOk(s.row, s.workers, s.last)
    && SweepOk(s.row, s.workers, s.runs, s.grants)
  }

  /** Moving a run without touching grants, except to say that its grant stands. */
  lemma MoveKeeps(s: State, i: nat, pc: Pc)
    requires Inv(s) && i < |s.runs| && !Finished(s.runs[i].pc)
    requires match pc case Broken => true case Refused => s.runs[i].pc.Start? || s.runs[i].pc.Checked?
      case Checked(request) => s.runs[i].pc.Start? && !SamePrincipal(s.runs[i].who, s.owner) && s.runs[i].reviewed == Some(request)
      case Superseded(g) => s.runs[i].pc == Minted(g)
      case _ => false
    ensures Inv(At(s, i, pc))
  {
  }

  lemma MintKeeps(s: State, i: nat, fault: Fault)
    requires Inv(s) && i < |s.runs| && s.runs[i].pc.Checked?
    ensures Inv(MintStep(s, i, fault))
  {
    assert RunOk(s.owner, s.runs[i], i, s.grants);
    var t := MintStep(s, i, fault);
    forall g | 0 <= g < |s.grants|
      ensures Settled(t.runs, t.grants, g) == Settled(s.runs, s.grants, g)
      ensures Unsettled(s.runs, s.grants, g) ==> Unsettled(t.runs, t.grants, g)
    {
    }
  }

  lemma RecheckKeeps(s: State, i: nat)
    requires Inv(s) && i < |s.runs| && s.runs[i].pc.Minted?
    ensures Inv(RecheckStep(s, i))
  {
  }

  lemma WithdrawKeeps(s: State, i: nat, fault: Fault)
    requires Inv(s) && i < |s.runs| && s.runs[i].pc.Superseded?
    ensures Inv(WithdrawStep(s, i, fault))
  {
    assert RunOk(s.owner, s.runs[i], i, s.grants);
    var t := WithdrawStep(s, i, fault);
    forall g | 0 <= g < |s.grants|
      ensures Settled(t.runs, t.grants, g) ==> Settled(s.runs, s.grants, g)
      ensures t.grants[g].live ==> Settled(t.runs, t.grants, g) || Unsettled(t.runs, t.grants, g)
    {
    }
  }

  lemma AdvanceKeeps(s: State, i: nat, fault: Fault, toolFits: bool)
    requires Inv(s) && i < |s.runs|
    ensures Inv(AdvanceStep(s, i, fault, toolFits))
  {
    var run := s.runs[i];
    if Finished(run.pc) {
    } else if fault.Lost? || (fault.LostAfterWrite? && (run.pc.Start? || run.pc.Minted?)) {
      MoveKeeps(s, i, Broken);
    } else {
      match run.pc
      case Start => MoveKeeps(s, i, ReadStep(s, run));
      case Checked(_) => if toolFits { MintKeeps(s, i, fault); } else { MoveKeeps(s, i, Refused); }
      case Minted(_) => RecheckKeeps(s, i);
      case Superseded(_) => WithdrawKeeps(s, i, fault);
      case _ =>
    }
  }

  lemma RetireKeeps(s: State, g: nat)
    requires Inv(s)
    ensures Inv(s.(grants := Retired(s.grants, g)))
  {
  }

  lemma ArriveKeeps(s: State, who: Principal, reviewed: Option<Request>)
    requires Inv(s)
    ensures Inv(s.(runs := s.runs + [Run(who, reviewed, Start)]))
  {
  }

  lemma SweepKeeps(s: State, w: nat, request: Request)
    requires Inv(s) && w < |s.workers|
    ensures Inv(SweepStep(s, w, request))
  {
  }

  lemma CommitKeeps(s: State, w: nat, leased: bool)
    requires Inv(s) && w < |s.workers| && s.workers[w].pc.Swept?
    ensures Inv(CommitStep(s, w, leased))
  {
  }

  lemma LeaveKeeps(s: State, w: nat, next: Status, leased: bool)
    requires Inv(s) && w < |s.workers|
    ensures Inv(LeaveStep(s, w, next, leased))
  {
  }

  lemma RowKeeps(s: State, a: Action)
    requires Inv(s)
    ensures Inv(RowStep(s, a))
  {
  }

  lemma StepKeeps(s: State, a: Action)
    requires Inv(s)
    ensures Inv(Step(s, a))
  {
    match a
    case Sweep(w, request) => if w < |s.workers| { SweepKeeps(s, w, request); }
    case Commit(w, leased) => if w < |s.workers| && s.workers[w].pc.Swept? { CommitKeeps(s, w, leased); }
    case Leave(w, next, leased) => if w < |s.workers| { LeaveKeeps(s, w, next, leased); }
    case Retire(g) => RetireKeeps(s, g);
    case Arrive(who, reviewed) => ArriveKeeps(s, who, reviewed);
    case Advance(i, fault, toolFits) => if i < |s.runs| { AdvanceKeeps(s, i, fault, toolFits); }
    case _ => RowKeeps(s, a);
  }

  // ---- over every run ------------------------------------------------------

  lemma {:induction false} InvariantHolds(s: State, actions: seq<Action>)
    requires Init(s)
    ensures Inv(After(s, actions)) && After(s, actions).owner == s.owner
    decreases |actions|
  {
    if actions != [] {
      InvariantHolds(s, actions[..|actions| - 1]);
      StepKeeps(After(s, actions[..|actions| - 1]), actions[|actions| - 1]);
    }
  }

  /**
   A live grant for anything but the request last made pending belongs to an approver that has
   minted and not yet confirmed or withdrawn, or was cut off in between. It was minted after
   the sweep that cleared the way for that request.
   */
  lemma StaleGrantIsUnsettled(s: State, actions: seq<Action>, g: nat)
    requires Init(s)
    ensures var t := After(s, actions);
      && (g < |t.grants| && t.grants[g].live ==> t.swept <= g)
      && (g < |t.grants| && t.grants[g].live && t.last != Some(t.grants[g].request) ==> Unsettled(t.runs, t.grants, g))
  {
    InvariantHolds(s, actions);
  }

  /** Of the approvers that are done, only one cut off by a lost call can leave a live grant for an earlier request. */
  lemma OnlyCutOffApproversLeaveStaleGrants(s: State, actions: seq<Action>, g: nat)
    requires Init(s) && g < |After(s, actions).grants| && After(s, actions).grants[g].live
    requires After(s, actions).last != Some(After(s, actions).grants[g].request)
    ensures var t := After(s, actions);
      && t.grants[g].run < |t.runs|
      && (Finished(t.runs[t.grants[g].run].pc) ==> t.runs[t.grants[g].run].pc == Broken)
  {
    InvariantHolds(s, actions);
  }

  predicate Authorises(s: State, g: nat)
    requires g < |s.grants|
  {
    s.row.status == WaitingForApproval(s.grants[g].request)
  }

  /** A live grant whose approver was told it stands authorises the pending request, exactly while one is pending. */
  lemma SettledGrantAuthorisesExactly(s: State, actions: seq<Action>, g: nat)
    requires Init(s) && Settled(After(s, actions).runs, After(s, actions).grants, g) && After(s, actions).grants[g].live
    ensures Authorises(After(s, actions), g) <==> After(s, actions).row.status.WaitingForApproval?
  {
    InvariantHolds(s, actions);
  }

  /** While a request is pending, every live grant is for it or is still being settled. */
  lemma PendingRequestIsTheOnlyOneGranted(s: State, actions: seq<Action>, g: nat)
    requires Init(s) && After(s, actions).row.status.WaitingForApproval?
    requires g < |After(s, actions).grants| && After(s, actions).grants[g].live
    ensures Authorises(After(s, actions), g) || Unsettled(After(s, actions).runs, After(s, actions).grants, g)
  {
    InvariantHolds(s, actions);
  }

  /** An approver's grant is for the request it reviewed, is never its own principal's, and is dead once withdrawn. */
  lemma GrantBindsWhatWasReviewed(s: State, actions: seq<Action>, i: nat)
    requires Init(s) && i < |After(s, actions).runs|
    ensures var t := After(s, actions); var run := t.runs[i];
      && (run.pc.Granted? || run.pc.Minted? || run.pc.Superseded? || run.pc.Withdrawn? ==>
            && run.pc.grant < |t.grants|
            && run.reviewed == Some(t.grants[run.pc.grant].request)
            && t.grants[run.pc.grant].approver == run.who
            && !SamePrincipal(run.who, s.owner))
      && (run.pc.Withdrawn? ==> !t.grants[run.pc.grant].live)
  {
    InvariantHolds(s, actions);
    var t := After(s, actions);
    assert RunOk(t.owner, t.runs[i], i, t.grants);
  }

  lemma AfterOneMore(s: State, actions: seq<Action>, a: Action)
    ensures After(s, actions + [a]) == Step(After(s, actions), a)
  {
  }

  /** The broker pauses an execution on `r`. */
  function Pausing(r: Request): seq<Action> {
    [Claim] + [Sweep(0, r)] + [Commit(0, true)]
  }

  lemma PausingPends(s: State, r: Request)
    requires Init(s)
    ensures After(s, Pausing(r)) ==
      State(s.owner, Row(WaitingForApproval(r), 1, false, false), [], [], [Worker(1, Gone)], Some(r), 0)
  {
    var open := s.(row := Row(Running, 1, true, false), workers := [Worker(1, Active)]);
    AfterOneMore(s, [], Claim);
    assert [] + [Claim] == [Claim];
    assert After(s, [Claim]) == open;
    AfterOneMore(s, [Claim], Sweep(0, r));
    assert After(s, [Claim] + [Sweep(0, r)]) == open.(workers := [Worker(1, Swept(r, 0))]);
    AfterOneMore(s, [Claim] + [Sweep(0, r)], Commit(0, true));
  }

  /** `who` approves it, undisturbed. */
  function Approving(r: Request, who: Principal): seq<Action> {
    Pausing(r) + [Arrive(who, Some(r))] + [Advance(0, NoFault, true)] + [Advance(0, NoFault, true)] + [Advance(0, NoFault, true)]
  }

  lemma ApprovingGrants(s: State, r: Request, who: Principal)
    requires Init(s) && r.readable && s.owner.issuer.Some? && !SamePrincipal(who, s.owner)
    ensures After(s, Approving(r, who)) ==
      State(s.owner, Row(WaitingForApproval(r), 1, false, false), [Grant(r, who, 0, true)],
            [Run(who, Some(r), Granted(0))], [Worker(1, Gone)], Some(r), 0)
  {
    var go := Advance(0, NoFault, true);
    PausingPends(s, r);
    var p := After(s, Pausing(r));
    AfterOneMore(s, Pausing(r), Arrive(who, Some(r)));
    AfterOneMore(s, Pausing(r) + [Arrive(who, Some(r))], go);
    assert Step(Step(p, Arrive(who, Some(r))), go) == p.(runs := [Run(who, Some(r), Checked(r))]);
    AfterOneMore(s, Pausing(r) + [Arrive(who, Some(r))] + [go], go);
    AfterOneMore(s, Pausing(r) + [Arrive(who, Some(r))] + [go] + [go], go);
  }

  /** Denying ends the execution and leaves the settled grant live with nothing pending. */
  lemma DeniedExecutionKeepsItsGrant(s: State, r: Request, who: Principal)
    requires Init(s) && r.readable && s.owner.issuer.Some? && !SamePrincipal(who, s.owner)
    ensures var t := After(s, Approving(r, who) + [Deny(None)]);
      Settled(t.runs, t.grants, 0) && t.grants[0].live && t.row.status.Done? && !Authorises(t, 0)
  {
    ApprovingGrants(s, r, who);
    AfterOneMore(s, Approving(r, who), Deny(None));
  }

  /** An approver of `r` has read it when the broker resumes and sweeps for `next`. */
  function Racing(r: Request, next: Request, who: Principal): seq<Action> {
    Pausing(r) + [Arrive(who, Some(r))] + [Advance(0, NoFault, true)] + [Resume] + [Sweep(1, next)]
  }

  lemma RacingSweepsTooEarly(s: State, r: Request, next: Request, who: Principal)
    requires Init(s) && r.readable && s.owner.issuer.Some? && !SamePrincipal(who, s.owner)
    ensures After(s, Racing(r, next, who)) ==
      State(s.owner, Row(Running, 2, true, false), [], [Run(who, Some(r), Checked(r))],
            [Worker(1, Gone), Worker(2, Swept(next, 0))], Some(r), 0)
  {
    PausingPends(s, r);
    var p := After(s, Pausing(r));
    var a := Pausing(r) + [Arrive(who, Some(r))];
    AfterOneMore(s, Pausing(r), Arrive(who, Some(r)));
    AfterOneMore(s, a, Advance(0, NoFault, true));
    assert After(s, a + [Advance(0, NoFault, true)]) == p.(runs := [Run(who, Some(r), Checked(r))]);
    AfterOneMore(s, a + [Advance(0, NoFault, true)], Resume);
    AfterOneMore(s, a + [Advance(0, NoFault, true)] + [Resume], Sweep(1, next));
  }

  /** It mints, loses the answer to its recheck, and the new request is committed. */
  function CutOff(r: Request, next: Request, who: Principal): seq<Action> {
    Racing(r, next, who) + [Advance(0, NoFault, true)] + [Advance(0, Lost, true)] + [Commit(1, true)]
  }

  /** An approver whose recheck failed in the store leaves a live grant for the earlier request while another is pending. */
  lemma CutOffApproverLeavesStaleGrant(s: State, r: Request, next: Request, who: Principal)
    requires Init(s) && r.readable && r != next && s.owner.issuer.Some? && !SamePrincipal(who, s.owner)
    ensures var t := After(s, CutOff(r, next, who));
      && t.row.status == WaitingForApproval(next) && |t.grants| == 1 && t.grants[0].live
      && t.grants[0].request == r && !Authorises(t, 0)
      && t.grants[0].run < |t.runs| && Finished(t.runs[t.grants[0].run].pc)
  {
    RacingSweepsTooEarly(s, r, next, who);
    var a := Racing(r, next, who);
    AfterOneMore(s, a, Advance(0, NoFault, true));
    var minted := After(s, a + [Advance(0, NoFault, true)]);
    assert minted == After(s, a).(grants := [Grant(r, who, 0, true)], runs := [Run(who, Some(r), Minted(0))]);
    AfterOneMore(s, a + [Advance(0, NoFault, true)], Advance(0, Lost, true));
    AfterOneMore(s, a + [Advance(0, NoFault, true)] + [Advance(0, Lost, true)], Commit(1, true));
  }

  // ---- exactly who may approve, deny and write -----------------------------

  lemma {:induction false} AfterBoth(s: State, first: seq<Action>, second: seq<Action>)
    ensures After(s, first + second) == After(After(s, first), second)
    decreases |second|
  {
    if second == [] {
      assert first + second == first;
    } else {
      var n := |second| - 1;
      AfterBoth(s, first, second[..n]);
      assert (first + second)[..|first + second| - 1] == first + second[..n];
    }
  }

  /** A request is waiting and readable, is the one reviewed, and the execution belongs to somebody known and else. */
  predicate MayApprove(s: State, who: Principal, reviewed: Option<Request>) {
    && s.owner.issuer.Some? && !(s.owner.sub == who.sub && s.owner.issuer.value == who.issuer)
    && s.row.status.WaitingForApproval? && s.row.status.request.readable && reviewed == Some(s.row.status.request)
  }

  /** The state once an approver has come to `pc`. */
  function Came(s: State, who: Principal, reviewed: Option<Request>, pc: Pc): State {
    s.(runs := s.runs + [Run(who, reviewed, pc)])
  }

  lemma RefusedStays(s: State, who: Principal, reviewed: Option<Request>, toolFits: bool)
    ensures Step(Came(s, who, reviewed, Refused), Advance(|s.runs|, NoFault, toolFits)) == Came(s, who, reviewed, Refused)
  {
  }

  lemma ReadsExactly(s: State, who: Principal, reviewed: Option<Request>, toolFits: bool)
    ensures Step(Came(s, who, reviewed, Start), Advance(|s.runs|, NoFault, toolFits))
         == Came(s, who, reviewed, if MayApprove(s, who, reviewed) then Checked(s.row.status.request) else Refused)
  {
  }

  lemma MintsAndConfirms(s: State, who: Principal, r: Request)
    requires Pending(s.row) == Some(r)
    ensures var go := Advance(|s.runs|, NoFault, true);
            Step(Step(Came(s, who, Some(r), Checked(r)), go), go)
            == Came(s, who, Some(r), Granted(|s.grants|)).(grants := s.grants + [Grant(r, who, |s.runs|, true)])
  {
    var go := Advance(|s.runs|, NoFault, true);
    var minted := Came(s, who, Some(r), Minted(|s.grants|)).(grants := s.grants + [Grant(r, who, |s.runs|, true)]);
    assert Step(Came(s, who, Some(r), Checked(r)), go) == minted;
  }

  /** A run of four actions, state by state. */
  lemma Leads(s: State, a: Action, b: Action, s1: State, s2: State, s3: State, s4: State)
    requires Step(s, a) == s1 && Step(s1, b) == s2 && Step(s2, b) == s3 && Step(s3, b) == s4
    ensures After(s, [a] + [b] + [b] + [b]) == s4
  {
    AfterOneMore(s, [], a);
    assert [] + [a] == [a] && After(s, [a]) == s1;
    AfterOneMore(s, [a], b);
    assert After(s, [a] + [b]) == s2;
    AfterOneMore(s, [a] + [b], b);
    assert After(s, [a] + [b] + [b]) == s3;
    AfterOneMore(s, [a] + [b] + [b], b);
  }

  /** Undisturbed, an approver is granted exactly when it may approve and the tool still fits, and what it mints is live and for that request. */
  lemma ApprovesExactly(s: State, who: Principal, reviewed: Option<Request>, toolFits: bool)
    ensures var go := Advance(|s.runs|, NoFault, toolFits);
            After(s, [Arrive(who, reviewed)] + [go] + [go] + [go])
            == if MayApprove(s, who, reviewed) && toolFits
               then Came(s, who, reviewed, Granted(|s.grants|))
                    .(grants := s.grants + [Grant(s.row.status.request, who, |s.runs|, true)])
               else Came(s, who, reviewed, Refused)
  {
    ReadsExactly(s, who, reviewed, toolFits);
    RefusedStays(s, who, reviewed, toolFits);
    var go, arrive := Advance(|s.runs|, NoFault, toolFits), Arrive(who, reviewed);
    var start, refused := Came(s, who, reviewed, Start), Came(s, who, reviewed, Refused);
    if !MayApprove(s, who, reviewed) {
      Leads(s, arrive, go, start, refused, refused, refused);
    } else if !toolFits {
      UnfitIsRefused(s, who, s.row.status.request);
      Leads(s, arrive, go, start, Came(s, who, reviewed, Checked(s.row.status.request)), refused, refused);
    } else {
      MintsAndConfirms(s, who, s.row.status.request);
      var checked := Came(s, who, reviewed, Checked(s.row.status.request));
      Leads(s, arrive, go, start, checked, Step(checked, go), Step(Step(checked, go), go));
    }
  }

  lemma UnfitIsRefused(s: State, who: Principal, r: Request)
    ensures Step(Came(s, who, Some(r), Checked(r)), Advance(|s.runs|, NoFault, false)) == Came(s, who, Some(r), Refused)
  {
  }

  /** A denial ends the execution exactly when a request waits, nobody cancels, and it names that request or none. */
  lemma DeniesExactly(s: State, actions: seq<Action>, expected: Option<Request>)
    requires Init(s)
    ensures var t := After(s, actions);
            After(s, actions + [Deny(expected)])
            == if t.row.status.WaitingForApproval? && !t.row.cancelling && expected in {None, Some(t.row.status.request)}
               then t.(row := t.row.(status := Done)) else t
  {
    InvariantHolds(s, actions);
    AfterOneMore(s, actions, Deny(expected));
  }

  /** What an execution that waits, for approval or to be resumed, comes to when it expires. */
  lemma ExpiryEndsWaiting(s: State, actions: seq<Action>)
    requires Init(s)
    ensures var t := After(s, actions);
            After(s, actions + [Expire])
            == if t.row.status.WaitingForApproval? || t.row.status.WaitingForResume? then t.(row := t.row.(status := Done)) else t
  {
    InvariantHolds(s, actions);
    AfterOneMore(s, actions, Expire);
  }

  /** A lapsed claim, or a submission nobody took, waits to be resumed if it can be and is over otherwise. */
  lemma LapsesExactly(s: State, actions: seq<Action>, resumable: bool)
    requires Init(s)
    ensures var t := After(s, actions);
            After(s, actions + [Lapse(resumable)])
            == if t.row.status == Running || t.row.status == Submitted
               then t.(row := t.row.(status := if resumable then WaitingForResume else Done, claimed := false)) else t
  {
    InvariantHolds(s, actions);
    AfterOneMore(s, actions, Lapse(resumable));
  }

  /** A submission is claimed, and a waiting execution resumed unless cancelled, by a fresh worker in an epoch of its own. */
  lemma StartsExactly(s: State, actions: seq<Action>, resume: bool)
    requires Init(s)
    ensures var t := After(s, actions); var waits := t.row.status.WaitingForApproval? || t.row.status == WaitingForResume;
            After(s, actions + [if resume then Resume else Claim])
            == if (resume && waits && !t.row.cancelling) || (!resume && t.row.status == Submitted)
               then t.(row := Row(Running, t.row.epoch + 1, true, t.row.cancelling),
                       workers := t.workers + [Worker(t.row.epoch + 1, Active)])
               else t
  {
    InvariantHolds(s, actions);
    if resume {
      AfterOneMore(s, actions, Resume);
    } else {
      AfterOneMore(s, actions, Claim);
    }
  }

  /** Retiring a grant kills it and no other. */
  lemma RetiresExactly(s: State, g: nat)
    requires g < |s.grants|
    ensures var t := Step(s, Retire(g));
            && t == s.(grants := t.grants) && |t.grants| == |s.grants| && t.grants[g] == s.grants[g].(live := false)
            && forall i | 0 <= i < |s.grants| && i != g :: t.grants[i] == s.grants[i]
  {
  }

  lemma {:induction false} DoneStays(s: State, more: seq<Action>)
    requires Inv(s) && s.row.status.Done?
    ensures Inv(After(s, more)) && After(s, more).row.status.Done? && After(s, more).last == s.last
    decreases |more|
  {
    if more != [] {
      DoneStays(s, more[..|more| - 1]);
      StepKeeps(After(s, more[..|more| - 1]), more[|more| - 1]);
    }
  }

  /** An execution that is over stays over, and no request of it becomes pending again. */
  lemma DoneIsFinal(s: State, actions: seq<Action>, more: seq<Action>)
    requires Init(s) && After(s, actions).row.status.Done?
    ensures After(s, actions + more).row.status.Done? && After(s, actions + more).last == After(s, actions).last
  {
    InvariantHolds(s, actions);
    AfterBoth(s, actions, more);
    DoneStays(After(s, actions), more);
  }

  /** Nothing is waiting for approval or to be claimed, and what runs may only end. */
  predicate WindingDown(row: Row, epoch: nat) {
    row.epoch == epoch && !row.status.WaitingForApproval? && (row.status.Done? || (row.cancelling && !row.status.Submitted?))
  }

  lemma {:induction false} WindsDown(s: State, more: seq<Action>)
    requires Inv(s) && WindingDown(s.row, s.row.epoch)
    ensures var t := After(s, more); Inv(t) && WindingDown(t.row, s.row.epoch) && t.last == s.last
    decreases |more|
  {
    if more != [] {
      WindsDown(s, more[..|more| - 1]);
      StepKeeps(After(s, more[..|more| - 1]), more[|more| - 1]);
    }
  }

  /** Once cancelled, an execution never again asks for approval and is never resumed, whatever its worker does. */
  lemma CancelIsFinal(s: State, actions: seq<Action>, lapsed: bool, more: seq<Action>)
    requires Init(s)
    ensures var t, u := After(s, actions), After(s, actions + [Cancel(lapsed)] + more);
            && u.row.epoch == t.row.epoch && !u.row.status.WaitingForApproval? && u.last == t.last
            && (!t.row.status.Running? || lapsed ==> u.row.status.Done?)
  {
    InvariantHolds(s, actions);
    AfterOneMore(s, actions, Cancel(lapsed));
    InvariantHolds(s, actions + [Cancel(lapsed)]);
    AfterBoth(s, actions + [Cancel(lapsed)], more);
    WindsDown(After(s, actions + [Cancel(lapsed)]), more);
    if After(s, actions + [Cancel(lapsed)]).row.status.Done? {
      DoneStays(After(s, actions + [Cancel(lapsed)]), more);
    }
  }

  /** A worker that holds the running claim of its own epoch, with its lease. */
  predicate MayWrite(s: State, w: nat, leased: bool)
    requires w < |s.workers|
  {
    s.row.status.Running? && s.row.epoch == s.workers[w].epoch && leased
  }

  /** A worker's request becomes the pending one exactly when it may write and nobody cancels; otherwise the row is as it was. */
  lemma CommitsExactly(s: State, actions: seq<Action>, w: nat, leased: bool)
    requires Init(s) && w < |After(s, actions).workers| && After(s, actions).workers[w].pc.Swept?
    ensures var t := After(s, actions); var u := Step(t, Commit(w, leased));
            if MayWrite(t, w, leased) && !t.row.cancelling
            then u.row == t.row.(status := WaitingForApproval(t.workers[w].pc.request), claimed := false)
                 && u.last == Some(t.workers[w].pc.request)
            else u.row == t.row && u.last == t.last
  {
    InvariantHolds(s, actions);
  }

  /** A worker ends its execution exactly when it may write, and pauses it only if nobody cancels. */
  lemma LeavesExactly(s: State, actions: seq<Action>, w: nat, next: Status, leased: bool)
    requires Init(s) && w < |After(s, actions).workers| && !After(s, actions).workers[w].pc.Gone?
    ensures var t := After(s, actions); var u := Step(t, Leave(w, next, leased));
            u.row == if MayWrite(t, w, leased) && (next == Done || (next == WaitingForResume && !t.row.cancelling))
                     then t.row.(status := next, claimed := false) else t.row
  {
    InvariantHolds(s, actions);
  }

  /** The claim of `epoch` is over. */
  predicate Over(row: Row, epoch: nat) {
    row.epoch > epoch || (row.epoch == epoch && !row.status.Running?)
  }

  lemma {:induction false} StaysOver(s: State, epoch: nat, more: seq<Action>)
    requires Inv(s) && Over(s.row, epoch)
    ensures Inv(After(s, more)) && Over(After(s, more).row, epoch)
    decreases |more|
  {
    if more != [] {
      StaysOver(s, epoch, more[..|more| - 1]);
      StepKeeps(After(s, more[..|more| - 1]), more[|more| - 1]);
    }
  }

  /** A worker whose claim lapsed is fenced out: in every continuation, nothing it still writes reaches the row. */
  lemma LapsedWorkerIsFenced(s: State, actions: seq<Action>, resumable: bool, more: seq<Action>, w: nat, next: Status, leased: bool)
    requires Init(s) && w < |After(s, actions).workers|
    ensures var u := After(s, actions + [Lapse(resumable)] + more);
            Step(u, Commit(w, leased)).row == u.row && Step(u, Leave(w, next, leased)).row == u.row
  {
    var t := After(s, actions);
    InvariantHolds(s, actions);
    AfterOneMore(s, actions, Lapse(resumable));
    InvariantHolds(s, actions + [Lapse(resumable)]);
    AfterBoth(s, actions + [Lapse(resumable)], more);
    StaysOver(After(s, actions + [Lapse(resumable)]), t.row.epoch, more);
    WorkersKeepTheirEpoch(After(s, actions + [Lapse(resumable)]), more, w);
  }

  lemma {:induction false} WorkersKeepTheirEpoch(s: State, more: seq<Action>, w: nat)
    requires w < |s.workers|
    ensures w < |After(s, more).workers| && After(s, more).workers[w].epoch == s.workers[w].epoch
    decreases |more|
  {
    if more != [] {
      WorkersKeepTheirEpoch(s, more[..|more| - 1], w);
    }
  }
}
